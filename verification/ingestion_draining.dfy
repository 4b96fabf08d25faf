/** Every run drains: a bound on its length, progress until settled, and a schedule that gets there. */
module IngestionDraining {
  import opened Envelope
  import opened Ingestion

  function Rank(p: Phase): nat {
    match p
    case Received => 4
    case Matching(_) => 3
    case Inserting(_) => 2
    case Acking(_, _) => 1
    case Nacking(_) => 1
    case Ended => 0
  }

  function Work(handlers: seq<Handler>): nat {
    if handlers == [] then 0 else Work(handlers[..|handlers| - 1]) + Rank(handlers[|handlers| - 1].phase)
  }

  /** Steps still owed: five for a message in the queue, the remaining phases for a running handler. */
  function Weight(s: State): nat {
    5 * |s.ready| + Work(s.handlers)
  }

  /** A worker joining, leaving, dying or losing its channel. */
  predicate Disruption(step: Step) {
    step.Start? || step.Disconnect? || step.Stop? || step.Crash?
  }

  function Disruptions(steps: seq<Step>): nat {
    if steps == [] then 0 else (if Disruption(steps[0]) then 1 else 0) + Disruptions(steps[1..])
  }

  predicate NoPublish(steps: seq<Step>) {
    forall st | st in steps :: !st.Publish?
  }

  lemma WorkAppend(handlers: seq<Handler>, h: Handler)
    ensures Work(handlers + [h]) == Work(handlers) + Rank(h.phase)
  {
    assert (handlers + [h])[..|handlers|] == handlers;
  }

  lemma {:induction false} WorkUpdate(handlers: seq<Handler>, t: nat, h: Handler)
    requires t < |handlers|
    ensures Work(handlers[t := h]) == Work(handlers) - Rank(handlers[t].phase) + Rank(h.phase)
  {
    var last := |handlers| - 1;
    if t < last {
      WorkUpdate(handlers[..last], t, h);
      assert handlers[t := h][..last] == handlers[..last][t := h];
    } else {
      assert handlers[t := h][..last] == handlers[..last];
    }
  }

  lemma {:induction false} WorkAtMost(after: seq<Handler>, before: seq<Handler>)
    requires |after| == |before|
    requires forall t | 0 <= t < |after| :: Rank(after[t].phase) <= Rank(before[t].phase)
    ensures Work(after) <= Work(before)
  {
    if after != [] {
      WorkAtMost(after[..|after| - 1], before[..|before| - 1]);
    }
  }

  lemma {:induction false} BoundedSet(ids: set<nat>, n: nat)
    requires forall i | i in ids :: i < n
    ensures |ids| <= n
  {
    if n > 0 {
      BoundedSet(ids - {n - 1}, n - 1);
      assert ids <= (ids - {n - 1}) + {n - 1};
    } else {
      assert ids == {};
    }
  }

  lemma DisruptionWeight(s: State, step: Step)
    requires Placed(s) && Enabled(s, step) && Disruption(step)
    ensures Weight(Apply(s, step)) <= Weight(s) + 5 * |s.published|
  {
    var s' := Apply(s, step);
    PlacedStep(s, step);
    SamePublished(s, step);
    BoundedSet(s'.ready, |s.published|);
    DisruptionRanks(s, step);
    WorkAtMost(s'.handlers, s.handlers);
  }

  lemma DisruptionRanks(s: State, step: Step)
    requires Enabled(s, step) && Disruption(step)
    ensures var s' := Apply(s, step);
            && |s'.handlers| == |s.handlers|
            && forall t | 0 <= t < |s.handlers| :: Rank(s'.handlers[t].phase) <= Rank(s.handlers[t].phase)
  {
  }

  lemma HandlerWeight(s: State, step: Step, t: nat)
    requires Enabled(s, step) && At(s, t) && !Disruption(step) && !step.Publish? && !step.Deliver? && step.tag == t
    ensures var s' := Apply(s, step);
            && s'.ready == s.ready
            && |s'.handlers| == |s.handlers|
            && s'.handlers == s.handlers[t := s'.handlers[t]]
            && Rank(s'.handlers[t].phase) < Rank(s.handlers[t].phase)
  {
  }

  /** Each ordinary step pays for itself; a disruption can at most put every message back. */
  lemma WeightStep(s: State, step: Step)
    requires Placed(s) && Enabled(s, step) && !step.Publish?
    ensures !Disruption(step) ==> Weight(Apply(s, step)) < Weight(s)
    ensures Disruption(step) ==> Weight(Apply(s, step)) <= Weight(s) + 5 * |s.published|
  {
    var s' := Apply(s, step);
    if Disruption(step) {
      DisruptionWeight(s, step);
    } else if step.Deliver? {
      WorkAppend(s.handlers, Handler(step.worker, step.message, true, Received));
      assert s.ready == s'.ready + {step.message};
    } else {
      HandlerWeight(s, step, step.tag);
      WorkUpdate(s.handlers, step.tag, s'.handlers[step.tag]);
    }
  }

  /** What disruptions may add to a run's length. */
  function Allowance(steps: seq<Step>, messages: nat): nat {
    if steps == [] then 0
    else (if Disruption(steps[0]) then 5 * messages + 1 else 0) + Allowance(steps[1..], messages)
  }

  lemma {:induction false} AllowancePerDisruption(steps: seq<Step>, messages: nat)
    ensures Allowance(steps, messages) == Disruptions(steps) * (5 * messages + 1)
  {
    if steps != [] {
      AllowancePerDisruption(steps[1..], messages);
      var d, each := Disruptions(steps[1..]), 5 * messages + 1;
      assert (1 + d) * each == each + d * each;
    }
  }

  lemma StepCost(s: State, step: Step)
    requires Placed(s) && Enabled(s, step) && !step.Publish?
    ensures 1 + Weight(Apply(s, step)) <= Weight(s) + (if Disruption(step) then 5 * |s.published| + 1 else 0)
    ensures Placed(Apply(s, step)) && Apply(s, step).published == s.published
  {
    PlacedStep(s, step);
    WeightStep(s, step);
    SamePublished(s, step);
  }

  lemma {:induction false} RunCost(s: State, steps: seq<Step>)
    requires Placed(s) && Admissible(s, steps) && NoPublish(steps)
    ensures |steps| + Weight(Exec(s, steps)) <= Weight(s) + Allowance(steps, |s.published|)
    decreases |steps|
  {
    if steps != [] {
      StepCost(s, steps[0]);
      RunCost(Apply(s, steps[0]), steps[1..]);
    }
  }

  /** With D disruptions and no new messages, a run takes at most Weight + D * (5n + 1) steps. */
  lemma {:induction false} RunsAreBounded(s: State, steps: seq<Step>)
    requires Placed(s) && Admissible(s, steps) && NoPublish(steps)
    ensures |steps| + Weight(Exec(s, steps)) <= Weight(s) + Disruptions(steps) * (5 * |s.published| + 1)
  {
    RunCost(s, steps);
    AllowancePerDisruption(steps, |s.published|);
  }

  lemma SamePublished(s: State, step: Step)
    requires Enabled(s, step) && !step.Publish?
    ensures Apply(s, step).published == s.published
  {
  }

  lemma {:induction false} LongestId(ids: set<string>) returns (n: nat)
    ensures forall id | id in ids :: |id| <= n
  {
    if ids == {} {
      n := 0;
    } else {
      var id :| id in ids;
      var m := LongestId(ids - {id});
      n := if m < |id| then |id| else m;
    }
  }

  /** An ordinary, fault-free step. */
  predicate Ordinary(step: Step) {
    !Disruption(step) && !step.Publish? && !step.Fault?
  }

  lemma UnmintedId(s: State) returns (id: string)
    ensures id !in s.minted
  {
    var n := LongestId(s.minted);
    id := seq(n + 1, k => 'x');
  }

  /** A live handler can take its next step. */
  lemma Advance(s: State, t: nat) returns (step: Step)
    requires At(s, t) && s.handlers[t].message < |s.published| && !s.handlers[t].phase.Ended?
    ensures Enabled(s, step) && Ordinary(step)
  {
    var id := UnmintedId(s);
    var p := s.handlers[t].phase;
    step := if p.Received? then Prepare(t, Draw(id, id, 0))
            else if p.Matching? then Match(t)
            else if p.Inserting? then Insert(t, true)
            else if p.Acking? then Ack(t)
            else Nack(t);
  }

  /** While a worker consumes and something is ready or unacknowledged, an ordinary step is possible. */
  lemma Progress(s: State) returns (step: Step)
    requires Inv(s) && s.consumers != {} && !Settled(s)
    ensures Enabled(s, step) && Ordinary(step)
  {
    if s.ready != {} {
      var w, i :| w in s.consumers && i in s.ready;
      step := Deliver(w, i);
    } else {
      var i :| i in Unacked(s);
      var t :| 0 <= t < |s.handlers| && s.handlers[t].held && s.handlers[t].message == i;
      step := Advance(s, t);
    }
  }

  /** A run that cannot go on by itself has nothing ready and nothing unacknowledged. */
  lemma {:induction false} StuckMeansSettled(steps: seq<Step>)
    requires Admissible(INIT, steps) && Exec(INIT, steps).consumers != {}
    requires forall step :: Enabled(Exec(INIT, steps), step) ==> !Ordinary(step)
    ensures Settled(Exec(INIT, steps))
  {
    InvRun(INIT, steps);
    if !Settled(Exec(INIT, steps)) {
      var step := Progress(Exec(INIT, steps));
      assert false;
    }
  }

  /** From every reachable state with a consumer, ordinary steps alone settle every message. */
  lemma {:induction false} Drains(s: State) returns (steps: seq<Step>)
    requires Inv(s) && s.consumers != {}
    ensures Admissible(s, steps) && Settled(Exec(s, steps))
    ensures forall step | step in steps :: Ordinary(step)
    ensures Exec(s, steps).published == s.published
    decreases Weight(s)
  {
    if Settled(s) {
      steps := [];
    } else {
      var step := Progress(s);
      InvStep(s, step);
      WeightStep(s, step);
      var rest := Drains(Apply(s, step));
      steps := [step] + rest;
      assert steps[1..] == rest;
    }
  }
}

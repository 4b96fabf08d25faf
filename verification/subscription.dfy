/** The subscription aggregate: its operations as functions on values, and the class that performs them. */
module Subscription {
  import opened Results
  import opened TargetUrl

  datatype Status = Active | Paused | Deleted
  datatype EventKind = SubscriptionCreated | SubscriptionPaused | SubscriptionResumed | SubscriptionDeleted
  datatype DomainEvent = DomainEvent(kind: EventKind, aggregateId: string, occurredAt: int)

  datatype DomainError =
    | InvalidIdentifier
    | InvalidEventType
    | InvalidStatusTransition
    | InvalidTargetUrl(code: UrlErrorCode)

  datatype Aggregate = Aggregate(
    id: string, tenantId: string, createdByClientId: string, createdByUserId: Option<string>,
    targetUrl: string, eventTypes: seq<string>, status: Status, createdAt: int, updatedAt: int,
    domainEvents: seq<DomainEvent>)
  {
    function Record(kind: EventKind, now: int): Aggregate {
      this.(domainEvents := domainEvents + [DomainEvent(kind, id, now)])
    }

    function Pause(now: int): Result<Aggregate, DomainError> {
      if status != Active then Err(InvalidStatusTransition)
      else Ok(this.(status := Paused, updatedAt := now).Record(SubscriptionPaused, now))
    }

    function Resume(now: int): Result<Aggregate, DomainError> {
      if status != Paused then Err(InvalidStatusTransition)
      else Ok(this.(status := Active, updatedAt := now).Record(SubscriptionResumed, now))
    }

    function Delete(now: int): Aggregate {
      if status == Deleted then this
      else this.(status := Deleted, updatedAt := now).Record(SubscriptionDeleted, now)
    }

    function UpdateTargetUrl(url: string, now: int): Result<Aggregate, DomainError> {
      if status == Deleted then Err(InvalidStatusTransition)
      else Ok(this.(targetUrl := url, updatedAt := now))
    }

    function UpdateEventTypes(types: seq<string>, now: int): Result<Aggregate, DomainError> {
      if status == Deleted then Err(InvalidStatusTransition)
      else if types == [] then Err(InvalidEventType)
      else Ok(this.(eventTypes := types, updatedAt := now))
    }

    /** What is left once the pending events are handed out. */
    function Drained(): Aggregate {
      this.(domainEvents := [])
    }
  }

  function Create(id: string, tenantId: string, clientId: string, userId: Option<string>, url: string,
                  types: seq<string>, now: int): Result<Aggregate, DomainError> {
    if types == [] then Err(InvalidEventType)
    else Ok(Aggregate(id, tenantId, clientId, userId, url, types, Active, now, now, []).Record(SubscriptionCreated, now))
  }

  class WebhookSubscription {
    const id: string
    const tenantId: string
    const createdByClientId: string
    const createdByUserId: Option<string>
    var targetUrlValue: string
    var eventTypes: seq<string>
    var statusValue: Status
    const createdAt: int
    var updatedAtValue: int
    var domainEvents: seq<DomainEvent>

    function Value(): Aggregate
      reads this
    {
      Aggregate(id, tenantId, createdByClientId, createdByUserId, targetUrlValue, eventTypes, statusValue,
                createdAt, updatedAtValue, domainEvents)
    }

    /** The private constructor behind `create` and `restore`: nothing is recorded yet. */
    constructor (a: Aggregate)
      ensures Value() == a.Drained()
    {
      id, tenantId, createdByClientId, createdByUserId := a.id, a.tenantId, a.createdByClientId, a.createdByUserId;
      targetUrlValue, eventTypes, statusValue := a.targetUrl, a.eventTypes, a.status;
      createdAt, updatedAtValue, domainEvents := a.createdAt, a.updatedAt, [];
    }

    method Record(kind: EventKind, now: int)
      modifies this
      ensures Value() == old(Value()).Record(kind, now)
    {
      domainEvents := domainEvents + [DomainEvent(kind, id, now)];
    }

    method Pause(now: int) returns (result: Result<(), DomainError>)
      modifies this
      ensures match old(Value()).Pause(now)
              case Ok(after) => result == Ok(()) && Value() == after
              case Err(e) => result == Err(e) && Value() == old(Value())
    {
      if statusValue != Active {
        return Err(InvalidStatusTransition);
      }
      statusValue := Paused;
      updatedAtValue := now;
      Record(SubscriptionPaused, updatedAtValue);
      return Ok(());
    }

    method Resume(now: int) returns (result: Result<(), DomainError>)
      modifies this
      ensures match old(Value()).Resume(now)
              case Ok(after) => result == Ok(()) && Value() == after
              case Err(e) => result == Err(e) && Value() == old(Value())
    {
      if statusValue != Paused {
        return Err(InvalidStatusTransition);
      }
      statusValue := Active;
      updatedAtValue := now;
      Record(SubscriptionResumed, updatedAtValue);
      return Ok(());
    }

    method Delete(now: int)
      modifies this
      ensures Value() == old(Value()).Delete(now)
    {
      if statusValue == Deleted {
        return;
      }
      statusValue := Deleted;
      updatedAtValue := now;
      Record(SubscriptionDeleted, updatedAtValue);
    }

    method UpdateTargetUrl(url: string, now: int) returns (result: Result<(), DomainError>)
      modifies this
      ensures match old(Value()).UpdateTargetUrl(url, now)
              case Ok(after) => result == Ok(()) && Value() == after
              case Err(e) => result == Err(e) && Value() == old(Value())
    {
      if statusValue == Deleted {
        return Err(InvalidStatusTransition);
      }
      targetUrlValue := url;
      updatedAtValue := now;
      return Ok(());
    }

    method UpdateSubscribedEventTypes(types: seq<string>, now: int) returns (result: Result<(), DomainError>)
      modifies this
      ensures match old(Value()).UpdateEventTypes(types, now)
              case Ok(after) => result == Ok(()) && Value() == after
              case Err(e) => result == Err(e) && Value() == old(Value())
    {
      if statusValue == Deleted {
        return Err(InvalidStatusTransition);
      }
      if types == [] {
        return Err(InvalidEventType);
      }
      eventTypes := types;
      updatedAtValue := now;
      return Ok(());
    }

    method PullDomainEvents() returns (events: seq<DomainEvent>)
      modifies this
      ensures events == old(domainEvents) && Value() == old(Value()).Drained()
    {
      events := domainEvents;
      domainEvents := [];
    }
  }

  // ---------------------------------------------------------------- event histories

  /** The status after one more event, None when the event cannot happen there. */
  function Next(status: Option<Status>, kind: EventKind): Option<Status> {
    match kind
    case SubscriptionCreated => if status == None then Some(Active) else None
    case SubscriptionPaused => if status == Some(Active) then Some(Paused) else None
    case SubscriptionResumed => if status == Some(Paused) then Some(Active) else None
    case SubscriptionDeleted => if status == Some(Active) || status == Some(Paused) then Some(Deleted) else None
  }

  /** The fold of an event history over the status machine; None as soon as an event is out of place. */
  function Fold(status: Option<Status>, history: seq<DomainEvent>): Option<Status> {
    if history == [] then status
    else
      var front := Fold(status, history[..|history| - 1]);
      if front.None? && |history| > 1 then None else Next(front, history[|history| - 1].kind)
  }

  function Kinds(history: seq<DomainEvent>): seq<EventKind> {
    seq(|history|, i requires 0 <= i < |history| => history[i].kind)
  }

  function PausesAndResumes(n: nat): seq<EventKind> {
    if n == 0 then [] else PausesAndResumes(n - 1) + [SubscriptionPaused, SubscriptionResumed]
  }

  /** Created (Paused Resumed)^n [Paused] [Deleted] */
  function Word(n: nat, paused: bool, deleted: bool): seq<EventKind> {
    [SubscriptionCreated] + PausesAndResumes(n)
    + (if paused then [SubscriptionPaused] else []) + (if deleted then [SubscriptionDeleted] else [])
  }

  function StatusOf(paused: bool, deleted: bool): Status {
    if deleted then Deleted else if paused then Paused else Active
  }

  ghost predicate InLanguage(kinds: seq<EventKind>, status: Status) {
    exists n: nat, paused, deleted :: kinds == Word(n, paused, deleted) && status == StatusOf(paused, deleted)
  }

  datatype Op =
    | Pause(now: int)
    | Resume(now: int)
    | Delete(now: int)
    | UpdateTargetUrl(url: string, now: int)
    | UpdateEventTypes(types: seq<string>, now: int)
    | PullDomainEvents

  /** One operation: the aggregate afterwards (unchanged when it throws) and the events pulled. */
  function Perform(a: Aggregate, op: Op): (Aggregate, seq<DomainEvent>) {
    match op
    case Pause(now) => (var r := a.Pause(now); if r.Ok? then r.value else a, [])
    case Resume(now) => (var r := a.Resume(now); if r.Ok? then r.value else a, [])
    case Delete(now) => (a.Delete(now), [])
    case UpdateTargetUrl(url, now) => (var r := a.UpdateTargetUrl(url, now); if r.Ok? then r.value else a, [])
    case UpdateEventTypes(types, now) => (var r := a.UpdateEventTypes(types, now); if r.Ok? then r.value else a, [])
    case PullDomainEvents => (a.Drained(), a.domainEvents)
  }

  /** A run of operations: the aggregate at the end and all batches pulled, in order. */
  function PerformAll(a: Aggregate, ops: seq<Op>): (Aggregate, seq<DomainEvent>) {
    if ops == [] then (a, [])
    else
      var (before, pulled) := PerformAll(a, ops[..|ops| - 1]);
      var (after, batch) := Perform(before, ops[|ops| - 1]);
      (after, pulled + batch)
  }

  /** Pulled batches, then what is still pending. */
  function History(a: Aggregate, ops: seq<Op>): seq<DomainEvent> {
    var (after, pulled) := PerformAll(a, ops);
    pulled + after.domainEvents
  }

  lemma FoldAppend(status: Option<Status>, history: seq<DomainEvent>, e: DomainEvent)
    requires history == [] || Fold(status, history).Some?
    ensures Fold(status, history + [e]) == Next(Fold(status, history), e.kind)
  {
    assert (history + [e])[..|history|] == history;
  }

  /** h' is h, or h and the one event that op's status change calls for. */
  ghost predicate Extended(a: Aggregate, after: Aggregate, op: Op, h: seq<DomainEvent>, h': seq<DomainEvent>) {
    || (h' == h && after.status == a.status)
    || (!op.PullDomainEvents?
        && exists e :: h' == h + [e] && Next(Some(a.status), e.kind) == Some(after.status)
                       && e.aggregateId == a.id && e.occurredAt == op.now == after.updatedAt)
  }

  lemma PerformExtends(a: Aggregate, op: Op, pulled: seq<DomainEvent>)
    ensures var (after, batch) := Perform(a, op);
            Extended(a, after, op, pulled + a.domainEvents, pulled + batch + after.domainEvents)
  {
    var (after, batch) := Perform(a, op);
    var h, h' := pulled + a.domainEvents, pulled + batch + after.domainEvents;
    if !op.PullDomainEvents? && after.domainEvents != a.domainEvents {
      var e := after.domainEvents[|a.domainEvents|];
      assert h' == h + [e];
    }
  }

  /** The history folds to the status, whatever is done: for a created aggregate from nothing, for a
      restored one from the status it was restored with. */
  lemma {:induction false} HistoryFolds(start: Option<Status>, a: Aggregate, ops: seq<Op>)
    requires Fold(start, a.domainEvents) == Some(a.status)
    ensures Fold(start, History(a, ops)) == Some(PerformAll(a, ops).0.status)
  {
    if ops == [] {
      assert [] + a.domainEvents == a.domainEvents;
    } else {
      var front, op := ops[..|ops| - 1], ops[|ops| - 1];
      HistoryFolds(start, a, front);
      var (before, pulled) := PerformAll(a, front);
      PerformExtends(before, op, pulled);
      var h := History(a, front);
      if History(a, ops) != h {
        var e :| History(a, ops) == h + [e] && Next(Some(before.status), e.kind) == Some(PerformAll(a, ops).0.status);
        FoldAppend(start, h, e);
      }
    }
  }

  lemma {:induction false} FoldIsLanguage(history: seq<DomainEvent>)
    requires history != [] && Fold(None, history).Some?
    ensures InLanguage(Kinds(history), Fold(None, history).value)
  {
    var last := |history| - 1;
    var front, kind := history[..last], history[last].kind;
    if front == [] {
      assert Kinds(history) == Word(0, false, false);
      assert Fold(None, history).value == StatusOf(false, false);
    } else {
      FoldIsLanguage(front);
      WordMore(Kinds(front), Fold(None, front).value, kind);
      assert Kinds(history) == Kinds(front) + [kind];
    }
  }

  /** A possible next event takes a word of the language to another. */
  lemma WordMore(kinds: seq<EventKind>, status: Status, kind: EventKind)
    requires InLanguage(kinds, status) && Next(Some(status), kind).Some?
    ensures InLanguage(kinds + [kind], Next(Some(status), kind).value)
  {
    var n: nat, paused, deleted :| kinds == Word(n, paused, deleted) && status == StatusOf(paused, deleted);
    var after := kinds + [kind];
    match kind {
      case SubscriptionPaused => assert after == Word(n, true, false) && StatusOf(true, false) == Paused;
      case SubscriptionResumed => assert after == Word(n + 1, false, false) && StatusOf(false, false) == Active;
      case SubscriptionDeleted => assert after == Word(n, paused, true) && StatusOf(paused, true) == Deleted;
    }
  }

  /** Over every run of operations on a created subscription the full event history is a word of
      Created (Paused Resumed)* [Paused] [Deleted], and that word determines the current status. */
  lemma HistoryDeterminesStatus(a: Aggregate, ops: seq<Op>)
    requires a.domainEvents == [DomainEvent(SubscriptionCreated, a.id, a.createdAt)] && a.status == Active
    ensures InLanguage(Kinds(History(a, ops)), PerformAll(a, ops).0.status)
    ensures Fold(None, History(a, ops)) == Some(PerformAll(a, ops).0.status)
  {
    assert a.domainEvents[..0] == [];
    HistoryFolds(None, a, ops);
    FoldIsLanguage(History(a, ops));
  }

  /** A restored aggregate owns nothing of the past: what it emits continues from its status. */
  lemma RestoredContinues(a: Aggregate, ops: seq<Op>)
    requires a.domainEvents == []
    ensures Fold(Some(a.status), History(a, ops)) == Some(PerformAll(a, ops).0.status)
    ensures (forall op | op in ops :: op.PullDomainEvents?) ==> History(a, ops) == []
  {
    HistoryFolds(Some(a.status), a, ops);
    if forall op | op in ops :: op.PullDomainEvents? {
      OnlyPulls(a, ops);
    }
  }

  lemma {:induction false} OnlyPulls(a: Aggregate, ops: seq<Op>)
    requires a.domainEvents == [] && forall op | op in ops :: op.PullDomainEvents?
    ensures PerformAll(a, ops) == (a, [])
  {
    if ops != [] {
      OnlyPulls(a, ops[..|ops| - 1]);
      assert ops[|ops| - 1] in ops;
      assert [] + a.domainEvents == [];
    }
  }

  lemma PerformLast(a: Aggregate, ops: seq<Op>, op: Op)
    ensures PerformAll(a, ops + [op]).0 == Perform(PerformAll(a, ops).0, op).0
    ensures !op.PullDomainEvents? ==> PerformAll(a, ops + [op]).1 == PerformAll(a, ops).1
  {
    assert (ops + [op])[..|ops|] == ops;
  }

  lemma KindsAppend(h: seq<DomainEvent>, e: DomainEvent)
    ensures Kinds(h + [e]) == Kinds(h) + [e.kind]
  {
  }

  /** One more status change, legal where the aggregate is, appends its event. */
  lemma {:induction false} AppendEvent(a: Aggregate, ops: seq<Op>, op: Op)
    requires var before := PerformAll(a, ops).0;
             && (op.Pause? ==> before.status == Active) && (op.Resume? ==> before.status == Paused)
             && (op.Delete? ==> before.status != Deleted) && (op.Pause? || op.Resume? || op.Delete?)
    ensures var kind := if op.Pause? then SubscriptionPaused
                        else if op.Resume? then SubscriptionResumed else SubscriptionDeleted;
            && Kinds(History(a, ops + [op])) == Kinds(History(a, ops)) + [kind]
            && Next(Some(PerformAll(a, ops).0.status), kind) == Some(PerformAll(a, ops + [op]).0.status)
  {
    PerformLast(a, ops, op);
    var (before, pulled) := PerformAll(a, ops);
    var after := PerformAll(a, ops + [op]).0;
    var e := after.domainEvents[|before.domainEvents|];
    assert pulled + after.domainEvents == (pulled + before.domainEvents) + [e];
    KindsAppend(pulled + before.domainEvents, e);
  }

  /** Every word of the language is the history of some run: the language is exact. */
  lemma {:induction false} EveryWordHappens(a: Aggregate, n: nat, paused: bool, deleted: bool) returns (ops: seq<Op>)
    requires a.domainEvents == [DomainEvent(SubscriptionCreated, a.id, a.createdAt)] && a.status == Active
    ensures Kinds(History(a, ops)) == Word(n, paused, deleted)
    ensures PerformAll(a, ops).0.status == StatusOf(paused, deleted)
    decreases n, paused, deleted
  {
    if deleted {
      var rest := EveryWordHappens(a, n, paused, false);
      ops := rest + [Delete(0)];
      AppendEvent(a, rest, Delete(0));
    } else if paused {
      var rest := EveryWordHappens(a, n, false, false);
      ops := rest + [Pause(0)];
      AppendEvent(a, rest, Pause(0));
    } else if n > 0 {
      var rest := EveryWordHappens(a, n - 1, true, false);
      ops := rest + [Resume(0)];
      AppendEvent(a, rest, Resume(0));
      assert Word(n - 1, true, false) + [SubscriptionResumed] == Word(n, false, false);
    } else {
      ops := [];
      assert Kinds([] + a.domainEvents) == Word(0, false, false);
    }
  }

  // ---------------------------------------------------------------- time

  /** createdAt <= event times, in order, <= updatedAt. */
  predicate Timely(a: Aggregate, history: seq<DomainEvent>) {
    && a.createdAt <= a.updatedAt
    && (forall i | 0 <= i < |history| :: a.createdAt <= history[i].occurredAt <= a.updatedAt)
    && (forall i, j | 0 <= i < j < |history| :: history[i].occurredAt <= history[j].occurredAt)
  }

  predicate ReadBetween(ops: seq<Op>, from: int, to: int) {
    forall i | 0 <= i < |ops| && !ops[i].PullDomainEvents? :: from <= ops[i].now <= to
  }

  predicate ClockMonotone(ops: seq<Op>) {
    forall i, j | 0 <= i < j < |ops| && !ops[i].PullDomainEvents? && !ops[j].PullDomainEvents? :: ops[i].now <= ops[j].now
  }

  /** Under a clock that never runs backwards, event times are in order between createdAt and updatedAt. */
  lemma {:induction false} HistoryIsTimely(a: Aggregate, ops: seq<Op>, now: int)
    requires Timely(a, a.domainEvents) && a.updatedAt <= now
    requires ClockMonotone(ops) && ReadBetween(ops, a.updatedAt, now)
    ensures Timely(PerformAll(a, ops).0, History(a, ops))
    ensures PerformAll(a, ops).0.updatedAt <= now && PerformAll(a, ops).0.createdAt == a.createdAt
    decreases |ops|
  {
    if ops == [] {
      assert [] + a.domainEvents == a.domainEvents;
    } else {
      var front, op := ops[..|ops| - 1], ops[|ops| - 1];
      HistoryIsTimely(a, front, if op.PullDomainEvents? then now else op.now);
      var (before, pulled) := PerformAll(a, front);
      TimelyStep(before, op, pulled);
    }
  }

  lemma TimelyStep(a: Aggregate, op: Op, pulled: seq<DomainEvent>)
    requires Timely(a, pulled + a.domainEvents) && (!op.PullDomainEvents? ==> a.updatedAt <= op.now)
    ensures var (after, batch) := Perform(a, op);
            && Timely(after, pulled + batch + after.domainEvents) && after.createdAt == a.createdAt
            && (after.updatedAt == a.updatedAt || (!op.PullDomainEvents? && after.updatedAt == op.now))
  {
    PerformExtends(a, op, pulled);
  }

  /** DELETED is final for the aggregate itself: nothing changes it again, nothing more is emitted. */
  lemma {:induction false} DeletedAggregateIsFinal(a: Aggregate, ops: seq<Op>)
    requires a.status == Deleted
    ensures PerformAll(a, ops).0.Drained() == a.Drained()
    ensures History(a, ops) == a.domainEvents
    decreases |ops|
  {
    if ops == [] {
      assert [] + a.domainEvents == a.domainEvents;
    } else {
      DeletedAggregateIsFinal(a, ops[..|ops| - 1]);
      var (before, pulled) := PerformAll(a, ops[..|ops| - 1]);
      PerformExtends(before, ops[|ops| - 1], pulled);
    }
  }
}

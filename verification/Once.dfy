/**
 One restore request, retried until it succeeds, with crashes between its steps.
 The topic's branch stays the same, so what it holds only grows.
 */
module Once {
  import opened Wrappers
  import opened Clocks
  import opened Topics
  import D = Delivery
  import R = Receipts

  /** Whose receipt it is: this restore's, or another request's under the same id. */
  datatype Owner = Mine | Other

  /** `after` is the topic's frontier when the receipt was prepared. */
  datatype Receipt =
    | Prepared(after: Clock, event: Option<OpId>)
    | Done(owner: Owner, event: Option<OpId>)

  /** Where the running attempt stands; `Published` is between the publication and its apply. */
  datatype Stage = Idle | Searching | Publishing | Published(event: OpId)

  /** `live` is the receipt the store shows, `disk` the one a crash leaves. `answers` is what attempts returned. */
  datatype State = State(
    view: D.View,
    live: Option<Receipt>,
    disk: Option<Receipt>,
    stage: Stage,
    answers: seq<Option<OpId>>)

  datatype Step =
    | Arrive(view: D.View) // more records, none of them an own one with the id
    | Apply(event: OpId) // reconciliation applies a record with the id
    | Bind(event: OpId) // the receipt learns its event before the record is applied
    | Attempt // returns a finished receipt's operation, or starts searching
    | Finish(event: OpId) // the search found the record
    | Nothing // the restore changes nothing
    | Prepare
    | Publish(op: Op)
    | Complete // the published record is bound and applied
    | Fail // any error on the way
    | Persist
    | Crash
    | Trim // retention drops the receipt

  /** The node's actor and the restore's mutation id. */
  datatype Restore = Restore(local: Actor, id: nat)

  // ----- The topic -----

  /** A topic whose operations observed nothing it does not hold. */
  ghost predicate ValidTopic(view: D.View) {
    D.ValidView(view) && forall id :: id in view.ops ==> Leq(view.ops[id].observed, view.clock)
  }

  ghost predicate Grows(older: D.View, newer: D.View) {
    D.Grows(older, newer) && ValidTopic(newer) && Leq(older.clock, newer.clock)
  }

  function With(view: D.View, op: Op): D.View {
    view.(ops := view.ops[op.id := op], clock := Observe(view.clock, op.actor, op.seq_))
  }

  /** Own records with the id. */
  predicate Ours(r: Restore, op: Op) {
    op.actor == r.local && R.Carries(op, r.id)
  }

  // ----- Steps -----

  function AsPrepared(r: Restore, view: D.View, receipt: Receipt): R.Prepared
    requires receipt.Prepared?
  {
    R.Prepared(r.id, receipt.after, view.epoch, view.genesis, receipt.event)
  }

  /** `find_mutation` comes back with this. */
  ghost predicate Finds(r: Restore, view: D.View, receipt: Option<Receipt>, found: Option<Op>) {
    receipt.Some? && receipt.value.Prepared? && R.Finds(view, r.local, AsPrepared(r, view, receipt.value), Ok(found))
  }

  /** A receipt that lets an attempt publish: none, or a prepared one whose record is not found. */
  ghost predicate LetsGo(r: Restore, view: D.View, receipt: Option<Receipt>) {
    receipt.None? || Finds(r, view, receipt, None)
  }

  /** The record reconciliation takes for the prepared one: the bound event, or an own one past the frontier. */
  predicate Binds(r: Restore, s: State, event: OpId) {
    && s.live.Some? && s.live.value.Prepared? && event in s.view.ops && Ours(r, s.view.ops[event])
    && (if s.live.value.event.Some? then s.live.value.event == Some(event)
        else Get(s.live.value.after, r.local) < s.view.ops[event].seq_)
  }

  /** The receipt after a record with the id is applied: the first receipt of a reused id is kept. */
  function Received(r: Restore, s: State, event: OpId): Option<Receipt> {
    if Binds(r, s, event) then Some(Done(Mine, Some(event)))
    else if s.live.None? then Some(Done(Other, Some(event)))
    else s.live
  }

  ghost predicate Enabled(r: Restore, s: State, step: Step) {
    match step
    case Arrive(view) => Grows(s.view, view) && forall id :: id in view.ops && id !in s.view.ops ==> !Ours(r, view.ops[id])
    case Apply(event) => event in s.view.ops && R.Carries(s.view.ops[event], r.id)
    case Bind(event) => Binds(r, s, event)
    case Attempt => s.stage == Idle
    case Finish(event) => s.stage == Searching && event in s.view.ops && Finds(r, s.view, s.live, Some(s.view.ops[event]))
    case Nothing => s.stage == Searching && LetsGo(r, s.view, s.live)
    case Prepare => s.stage == Searching && LetsGo(r, s.view, s.live)
    case Publish(op) =>
      && s.stage == Publishing && Ours(r, op) && op.id !in s.view.ops
      && op.seq_ == Get(s.view.clock, r.local) + 1 && ValidTopic(With(s.view, op))
    case Complete => s.stage.Published?
    case Fail => true
    case Persist => true
    case Crash => true
    case Trim => true
  }

  /** A finished receipt answers at once, another request's refuses, and a prepared one is finished. */
  function Attempted(s: State): State {
    match s.live
    case None => s.(stage := Searching)
    case Some(receipt) =>
      match receipt
      case Prepared(_, _) => s.(stage := Searching)
      case Done(owner, event) => if owner == Mine then s.(answers := s.answers + [event]) else s
  }

  function Next(r: Restore, s: State, step: Step): State
    requires step.Bind? ==> s.live.Some? && s.live.value.Prepared?
    requires step.Complete? ==> s.stage.Published?
  {
    match step
    case Arrive(view) => s.(view := view)
    case Apply(event) => s.(live := Received(r, s, event))
    case Bind(event) => s.(live := Some(Prepared(s.live.value.after, Some(event))))
    case Attempt => Attempted(s)
    case Finish(event) =>
      s.(live := Some(Done(Mine, Some(event))), stage := Idle, answers := s.answers + [Some(event)])
    case Nothing =>
      var done := Some(Done(Mine, None));
      s.(live := done, disk := done, stage := Idle, answers := s.answers + [None])
    case Prepare =>
      // A new receipt is durable before anything is published.
      if s.live.None? then
        var receipt := Some(Prepared(s.view.clock, None));
        s.(live := receipt, disk := receipt, stage := Publishing)
      else s.(stage := Publishing)
    case Publish(op) => s.(view := With(s.view, op), stage := Published(op.id))
    case Complete =>
      var receipt := Received(r, s, s.stage.event);
      var answered := receipt.Some? && receipt.value.Done? && receipt.value.owner == Mine;
      s.(live := receipt, stage := Idle, answers := if answered then s.answers + [receipt.value.event] else s.answers)
    case Fail => s.(stage := Idle)
    case Persist => s.(disk := s.live)
    case Crash => s.(live := s.disk, stage := Idle)
    case Trim => s.(live := None, disk := None)
  }

  ghost predicate Run(r: Restore, from: State, steps: seq<Step>, to: State)
    decreases |steps|
  {
    if steps == [] then from == to
    else Enabled(r, from, steps[0]) && Run(r, Next(r, from, steps[0]), steps[1..], to)
  }

  function Start(view: D.View): State {
    State(view, None, None, Idle, [])
  }

  // ----- What the search finds -----

  /** What it finds is an own record with the id, the bound one or one past the frontier. */
  lemma FoundIsOurs(r: Restore, view: D.View, receipt: Option<Receipt>, op: Op)
    requires D.ValidView(view) && Finds(r, view, receipt, Some(op))
    ensures op.id in view.ops && view.ops[op.id] == op && R.Carries(op, r.id)
    ensures receipt.value.event.None? ==> Ours(r, op) && Get(receipt.value.after, r.local) < op.seq_
    ensures receipt.value.event.Some? ==> receipt.value.event == Some(op.id)
  {}

  /** It does not come back empty while an own record with the id, or one nobody can read, is past the frontier. */
  lemma StopIsFound(r: Restore, view: D.View, receipt: Option<Receipt>, id: OpId)
    requires D.ValidView(view) && receipt.Some? && receipt.value.Prepared? && id in view.ops
    requires R.Stops(view.ops[id], r.local, r.id) && Get(receipt.value.after, r.local) < view.ops[id].seq_
    ensures !Finds(r, view, receipt, None)
  {
    assert id in Covered(view.ops, view.clock);
    assert view.ops[id] in D.Pending(view.ops, receipt.value.after, view.clock);
  }

  // ----- The invariant -----

  /** A receipt that leads to the one own record with the id. */
  predicate PointsAt(r: Restore, receipt: Option<Receipt>, op: Op) {
    && receipt.Some?
    && match receipt.value
       case Prepared(after, event) => Get(after, r.local) < op.seq_ && (event.None? || event == Some(op.id))
       case Done(owner, event) => owner == Mine && event == Some(op.id)
  }

  /** A receipt from before anything was published. */
  predicate Early(r: Restore, receipt: Option<Receipt>, view: D.View) {
    receipt.Some? ==>
      match receipt.value
      case Prepared(after, event) => Get(after, r.local) <= Get(view.clock, r.local) && event.None?
      case Done(owner, event) => owner == Mine ==> event.None?
  }

  predicate IsPrepared(receipt: Option<Receipt>) {
    receipt.Some? && receipt.value.Prepared?
  }

  ghost predicate Unpublished(r: Restore, s: State) {
    && ValidTopic(s.view) && (forall id :: id in s.view.ops ==> !Ours(r, s.view.ops[id]))
    && Early(r, s.live, s.view) && Early(r, s.disk, s.view)
    && (IsPrepared(s.live) ==> IsPrepared(s.disk))
    && (s.stage == Publishing ==> IsPrepared(s.live)) && !s.stage.Published?
    && (forall i :: 0 <= i < |s.answers| ==> s.answers[i].None?)
    && (s.live == Some(Done(Mine, None)) ==> s.disk == s.live)
    && (s.answers != [] ==> s.live == Some(Done(Mine, None)) && s.stage != Searching)
  }

  ghost predicate PublishedAs(r: Restore, s: State, event: OpId) {
    && ValidTopic(s.view) && event in s.view.ops && Ours(r, s.view.ops[event])
    && (forall id :: id in s.view.ops && Ours(r, s.view.ops[id]) ==> id == event)
    && PointsAt(r, s.live, s.view.ops[event]) && PointsAt(r, s.disk, s.view.ops[event])
    && s.stage != Publishing && (s.stage.Published? ==> s.stage.event == event)
    && (forall i :: 0 <= i < |s.answers| ==> s.answers[i] == Some(event))
  }

  ghost predicate Inv(r: Restore, s: State) {
    Unpublished(r, s) || exists event :: PublishedAs(r, s, event)
  }

  lemma PublishStep(r: Restore, s: State, op: Op)
    requires Unpublished(r, s) && Enabled(r, s, Publish(op))
    ensures PublishedAs(r, Next(r, s, Publish(op)), op.id)
  {}

  /** Steps that leave the receipts as they are, or swap one for the other. */
  predicate IsOutside(step: Step) {
    step.Arrive? || step.Attempt? || step.Fail? || step.Persist? || step.Crash?
  }

  lemma UnpublishedOutside(r: Restore, s: State, step: Step)
    requires Unpublished(r, s) && Enabled(r, s, step) && IsOutside(step)
    ensures Unpublished(r, Next(r, s, step))
  {}

  lemma UnpublishedStep(r: Restore, s: State, step: Step)
    requires Unpublished(r, s) && Enabled(r, s, step) && !step.Trim? && !step.Publish?
    ensures Unpublished(r, Next(r, s, step))
  {
    if IsOutside(step) {
      UnpublishedOutside(r, s, step);
    } else if step.Finish? {
      FoundIsOurs(r, s.view, s.live, s.view.ops[step.event]);
    }
  }

  lemma PublishedOutside(r: Restore, s: State, event: OpId, step: Step)
    requires PublishedAs(r, s, event) && Enabled(r, s, step) && IsOutside(step)
    ensures PublishedAs(r, Next(r, s, step), event)
  {}

  lemma PublishedStep(r: Restore, s: State, event: OpId, step: Step)
    requires PublishedAs(r, s, event) && Enabled(r, s, step) && !step.Trim?
    ensures PublishedAs(r, Next(r, s, step), event)
  {
    if IsOutside(step) {
      PublishedOutside(r, s, event, step);
    } else {
      if IsPrepared(s.live) {
        StopIsFound(r, s.view, s.live, event);
      }
      if step.Finish? {
        FoundIsOurs(r, s.view, s.live, s.view.ops[step.event]);
      }
    }
  }

  lemma {:induction false} RunKeeps(r: Restore, from: State, steps: seq<Step>, to: State)
    requires Inv(r, from) && Run(r, from, steps, to) && Trim !in steps
    ensures Inv(r, to)
    decreases |steps|
  {
    if steps != [] {
      var step := steps[0];
      assert step in steps && forall x :: x in steps[1..] ==> x in steps;
      if Unpublished(r, from) {
        if step.Publish? {
          PublishStep(r, from, step.op);
        } else {
          UnpublishedStep(r, from, step);
        }
      } else {
        var event :| PublishedAs(r, from, event);
        PublishedStep(r, from, event, step);
      }
      RunKeeps(r, Next(r, from, step), steps[1..], to);
    }
  }

  /**
   While its receipt is kept, a restore is published at most once over all
   attempts and crashes, and all attempts that return an answer return the same:
   the operation of that one record, or nothing.
   */
  lemma ExactlyOnce(r: Restore, view: D.View, steps: seq<Step>, s: State)
    requires ValidTopic(view) && forall id :: id in view.ops ==> !Ours(r, view.ops[id])
    requires Run(r, Start(view), steps, s) && Trim !in steps
    ensures forall a, b :: a in s.view.ops && b in s.view.ops && Ours(r, s.view.ops[a]) && Ours(r, s.view.ops[b]) ==> a == b
    ensures forall id, a :: id in s.view.ops && Ours(r, s.view.ops[id]) && a in s.answers ==> a == Some(id)
    ensures forall a, b :: a in s.answers && b in s.answers ==> a == b
    ensures forall a :: a in s.answers && a.Some? ==> a.value in s.view.ops && Ours(r, s.view.ops[a.value])
  {
    RunKeeps(r, Start(view), steps, s);
  }

  /** Once published, every later answer is that record's operation, whatever peers send. */
  lemma {:induction false} AnswersStay(r: Restore, s: State, event: OpId, steps: seq<Step>, end: State)
    requires PublishedAs(r, s, event) && Run(r, s, steps, end) && Trim !in steps
    ensures PublishedAs(r, end, event)
    decreases |steps|
  {
    if steps != [] {
      assert steps[0] in steps && forall x :: x in steps[1..] ==> x in steps;
      PublishedStep(r, s, event, steps[0]);
      AnswersStay(r, Next(r, s, steps[0]), event, steps[1..], end);
    }
  }

  /** A search that finds the record, and the apply of the published record, answer with that record's operation. */
  lemma PublishedAnswers(r: Restore, s: State, event: OpId, step: Step)
    requires PublishedAs(r, s, event) && Enabled(r, s, step) && (step.Finish? || step.Complete?)
    ensures Next(r, s, step).answers == s.answers + [Some(event)] && Next(r, s, step).stage == Idle
  {
    if step.Finish? {
      FoundIsOurs(r, s.view, s.live, s.view.ops[step.event]);
    }
  }

  /** From then on an attempt on the finished receipt answers with exactly what the receipt holds: that record, or nothing. */
  lemma FinishedAnswers(r: Restore, view: D.View, steps: seq<Step>, s: State, event: Option<OpId>)
    requires ValidTopic(view) && forall id :: id in view.ops ==> !Ours(r, view.ops[id])
    requires Run(r, Start(view), steps, s) && Trim !in steps && s.stage == Idle && s.live == Some(Done(Mine, event))
    ensures Next(r, s, Attempt) == s.(answers := s.answers + [event])
    ensures forall id :: id in s.view.ops && Ours(r, s.view.ops[id]) <==> event == Some(id)
  {
    RunKeeps(r, Start(view), steps, s);
    InvTells(r, s, event);
  }

  lemma InvTells(r: Restore, s: State, event: Option<OpId>)
    requires Inv(r, s) && s.live == Some(Done(Mine, event))
    ensures forall id :: id in s.view.ops && Ours(r, s.view.ops[id]) <==> event == Some(id)
  {
    if !Unpublished(r, s) {
      var published :| PublishedAs(r, s, published);
      assert PointsAt(r, s.live, s.view.ops[published]);
    }
  }

  // ----- When a restore can be published again -----

  /** The state lies at the start of some run, without a trim, that publishes the restore. */
  ghost predicate CanPublish(r: Restore, s: State) {
    exists steps, t, id :: Publishes(r, s, steps, t, id)
  }

  ghost predicate Publishes(r: Restore, s: State, steps: seq<Step>, t: State, id: OpId) {
    Run(r, s, steps, t) && Trim !in steps && id !in s.view.ops && id in t.view.ops && Ours(r, t.view.ops[id])
  }

  function OurIds(r: Restore, view: D.View): set<OpId> {
    set id | id in view.ops && Ours(r, view.ops[id])
  }

  /** No attempt is about to publish, and neither receipt lets one. */
  ghost predicate Blocked(r: Restore, s: State) {
    && ValidTopic(s.view) && !LetsGo(r, s.view, s.live) && !LetsGo(r, s.view, s.disk)
    && (s.stage == Idle || s.stage == Searching)
  }

  /** A receipt that stops an attempt goes on stopping it as the topic grows. */
  lemma StaysStopped(r: Restore, older: D.View, newer: D.View, receipt: Option<Receipt>)
    requires D.ValidView(older) && Grows(older, newer) && !LetsGo(r, older, receipt)
    ensures !LetsGo(r, newer, receipt)
  {
    if IsPrepared(receipt) && receipt.value.event.None? {
      var prepared := AsPrepared(r, older, receipt.value);
      assert !R.Answers(older, r.local, prepared, Ok(None));
      var x :| x in D.Pending(older.ops, receipt.value.after, older.clock) && R.Stops(x, r.local, r.id);
      StopIsFound(r, newer, receipt, x.id);
    }
  }

  lemma BlockedStep(r: Restore, s: State, step: Step)
    requires Blocked(r, s) && Enabled(r, s, step) && !step.Trim?
    ensures Blocked(r, Next(r, s, step))
    ensures OurIds(r, Next(r, s, step).view) <= OurIds(r, s.view)
  {
    if step.Arrive? {
      StaysStopped(r, s.view, step.view, s.live);
      StaysStopped(r, s.view, step.view, s.disk);
    }
  }

  lemma {:induction false} BlockedRun(r: Restore, s: State, steps: seq<Step>, t: State)
    requires Blocked(r, s) && Run(r, s, steps, t) && Trim !in steps
    ensures OurIds(r, t.view) <= OurIds(r, s.view)
    decreases |steps|
  {
    if steps != [] {
      assert steps[0] in steps && forall x :: x in steps[1..] ==> x in steps;
      BlockedStep(r, s, steps[0]);
      BlockedRun(r, Next(r, s, steps[0]), steps[1..], t);
    }
  }

  lemma {:induction false} Ceiling(ops: Ops, ids: set<OpId>) returns (top: nat)
    requires ids <= ops.Keys
    ensures forall id :: id in ids ==> id < top && ops[id].generation < top
  {
    top := 0;
    if ids != {} {
      var id :| id in ids;
      var rest := Ceiling(ops, ids - {id});
      top := rest + id + ops[id].generation + 1;
    }
  }

  /** The record an attempt would publish: it depends on everything the topic holds. */
  function NextOp(r: Restore, view: D.View, top: nat): Op {
    Op(top, r.local, Get(view.clock, r.local) + 1, top, view.ops.Keys, view.clock,
       GraphEvent(0, true, Mutation(r.id, [], None)), 0)
  }

  lemma {:induction false} BelowSame(ops: Ops, op: Op, a: OpId, b: OpId)
    requires Acyclic(ops) && op.id !in ops && Acyclic(ops[op.id := op]) && b in ops
    ensures Below(ops[op.id := op], a, b) <==> Below(ops, a, b)
    decreases ops[b].generation
  {
    forall d | d in ops[b].deps ensures Below(ops[op.id := op], a, d) <==> Below(ops, a, d) {
      BelowSame(ops, op, a, d);
    }
  }

  lemma NextAcyclic(r: Restore, view: D.View, top: nat)
    requires Acyclic(view.ops) && forall id :: id in view.ops ==> id < top && view.ops[id].generation < top
    ensures Acyclic(view.ops[top := NextOp(r, view, top)])
  {
    var ops := view.ops[top := NextOp(r, view, top)];
    forall id, d | id in ops && d in ops[id].deps ensures d in ops && ops[d].generation < ops[id].generation {
      assert d in view.ops && ops[d] == view.ops[d];
    }
  }

  lemma NextChained(r: Restore, view: D.View, top: nat)
    requires ValidTopic(view) && top !in view.ops && Acyclic(view.ops[top := NextOp(r, view, top)])
    ensures UniquePositions(view.ops[top := NextOp(r, view, top)]) && Chained(view.ops[top := NextOp(r, view, top)])
  {
    var old_, ops := view.ops, view.ops[top := NextOp(r, view, top)];
    assert forall id :: id in old_ ==> id in Covered(old_, view.clock);
    forall a, b | a in ops && b in ops && ops[a].actor == ops[b].actor && ops[a].seq_ < ops[b].seq_ ensures ChainStep(ops, a, b) {
      if b == top {
        assert a in ops[b].deps;
      } else {
        assert a in old_ && ChainStep(old_, a, b);
        var d :| d in old_[b].deps && old_[d].actor == old_[b].actor && old_[a].seq_ <= old_[d].seq_ < old_[b].seq_;
        assert d in ops[b].deps && ops[d] == old_[d];
      }
    }
  }

  lemma NextObserves(r: Restore, view: D.View, top: nat)
    requires ValidTopic(view) && top !in view.ops && Acyclic(view.ops[top := NextOp(r, view, top)])
    ensures ObservesPast(view.ops[top := NextOp(r, view, top)])
  {
    var old_, op := view.ops, NextOp(r, view, top);
    var ops := old_[top := op];
    assert forall id :: id in old_ ==> id in Covered(old_, view.clock);
    forall a, b | a in ops && b in ops && a != b ensures Contains(ops[b].observed, DotOf(ops[a])) <==> Below(ops, a, b) {
      if b == top {
        assert a in op.deps && Below(ops, a, a);
      } else {
        BelowSame(old_, op, a, b);
        if a == top {
          assert Get(old_[b].observed, r.local) <= Get(view.clock, r.local);
          if Below(old_, a, b) {
            BelowIsOlder(old_, a, b);
          }
        }
      }
    }
  }

  lemma NextPositions(r: Restore, view: D.View, top: nat)
    requires ValidTopic(view) && top !in view.ops
    ensures D.TargetExists(With(view, NextOp(r, view, top)).ops, map[], With(view, NextOp(r, view, top)).clock)
  {
    var op := NextOp(r, view, top);
    var next := With(view, op);
    forall a: Actor | 0 < Get(next.clock, a) ensures D.HoldsPosition(next.ops, a, Get(next.clock, a)) {
      if a == r.local {
        assert next.ops[top] == op && DotOf(op) == Dot(a, Get(next.clock, a));
      } else {
        assert D.HoldsPosition(view.ops, a, Get(view.clock, a));
        var id :| id in view.ops && DotOf(view.ops[id]) == Dot(a, Get(view.clock, a));
        assert next.ops[id] == view.ops[id];
      }
    }
  }

  lemma NextCovers(r: Restore, view: D.View, top: nat)
    requires ValidTopic(view) && top !in view.ops
    ensures
      var next := With(view, NextOp(r, view, top));
      Covered(next.ops, next.clock) == next.ops.Keys && forall id :: id in next.ops ==> Leq(next.ops[id].observed, next.clock)
  {
    var next := With(view, NextOp(r, view, top));
    assert Leq(view.clock, next.clock);
    forall id | id in next.ops ensures id in Covered(next.ops, next.clock) && Leq(next.ops[id].observed, next.clock) {
      if id != top {
        assert id in Covered(view.ops, view.clock) && next.ops[id] == view.ops[id];
        assert Leq(view.ops[id].observed, view.clock);
      }
    }
  }

  lemma NextIsValid(r: Restore, view: D.View, top: nat)
    requires ValidTopic(view) && forall id :: id in view.ops ==> id < top && view.ops[id].generation < top
    ensures ValidTopic(With(view, NextOp(r, view, top))) && Ours(r, NextOp(r, view, top)) && top !in view.ops
  {
    NextAcyclic(r, view, top);
    NextChained(r, view, top);
    NextObserves(r, view, top);
    NextPositions(r, view, top);
    NextCovers(r, view, top);
  }

  lemma RunThen(r: Restore, from: State, step: Step, rest: seq<Step>, to: State)
    requires Enabled(r, from, step) && Run(r, Next(r, from, step), rest, to)
    ensures Run(r, from, [step] + rest, to)
  {
    assert ([step] + rest)[1..] == rest;
  }

  lemma AttemptPublishes(r: Restore, s: State) returns (steps: seq<Step>, t: State, id: OpId)
    requires ValidTopic(s.view) && s.stage == Idle && LetsGo(r, s.view, s.live)
    ensures Publishes(r, s, steps, t, id)
  {
    id := Ceiling(s.view.ops, s.view.ops.Keys);
    NextIsValid(r, s.view, id);
    var publish := Publish(NextOp(r, s.view, id));
    var s1 := Next(r, s, Attempt);
    var s2 := Next(r, s1, Prepare);
    t := Next(r, s2, publish);
    RunThen(r, s2, publish, [], t);
    RunThen(r, s1, Prepare, [publish] + [], t);
    steps := [Attempt] + ([Prepare] + ([publish] + []));
    RunThen(r, s, Attempt, [Prepare] + ([publish] + []), t);
  }

  /** Between attempts, a restore can be published, for the first time or again, exactly when the live or the durable receipt lets it. */
  lemma CanPublishIff(r: Restore, s: State)
    requires ValidTopic(s.view) && s.stage == Idle
    ensures CanPublish(r, s) <==> LetsGo(r, s.view, s.live) || LetsGo(r, s.view, s.disk)
  {
    if LetsGo(r, s.view, s.live) {
      var steps, t, id := AttemptPublishes(r, s);
    } else if LetsGo(r, s.view, s.disk) {
      var crashed := Next(r, s, Crash);
      var steps, t, id := AttemptPublishes(r, crashed);
      RunThen(r, s, Crash, steps, t);
      assert Publishes(r, s, [Crash] + steps, t, id);
    } else {
      forall steps, t, id | Publishes(r, s, steps, t, id) ensures false {
        assert id in OurIds(r, t.view);
        BlockedRun(r, s, steps, t);
      }
    }
  }

  /** Between attempts, a published restore whose receipts are kept is not published again; one whose receipts are trimmed can be. */
  lemma TrimReopens(r: Restore, s: State, event: OpId)
    requires PublishedAs(r, s, event) && s.stage == Idle
    ensures !CanPublish(r, s) && CanPublish(r, Next(r, s, Trim))
  {
    CanPublishIff(r, s);
    CanPublishIff(r, Next(r, s, Trim));
    if IsPrepared(s.live) {
      StopIsFound(r, s.view, s.live, event);
    }
    if IsPrepared(s.disk) {
      StopIsFound(r, s.view, s.disk, event);
    }
  }
}

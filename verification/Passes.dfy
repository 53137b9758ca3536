/** `reconcile_topic`: a whole pass over a topic, as a run of the reconcile machine. */
module Passes {
  import opened Wrappers
  import opened Clocks
  import opened Topics
  import opened Listings
  import opened Reconcile
  import D = Delivery

  lemma {:induction false} RunAppend(p: Place, from: World, steps: seq<Step>, mid: World, step: Step)
    requires Acyclic(p.ops) && Run(p, from, steps, mid) && mid.trail != [] && Enabled(p, mid, step)
    ensures Run(p, from, steps + [step], Next(p, mid, step))
    decreases |steps|
  {
    if steps == [] {
      assert ([] + [step])[1..] == [];
    } else {
      RunAppend(p, Next(p, from, steps[0]), steps[1..], mid, step);
      assert (steps + [step])[1..] == steps[1..] + [step];
    }
  }

  /** What the topic shows now is a causally closed part of all it ever holds. */
  ghost predicate Shows(p: Place, w: World, view: D.View) {
    && WellFormed(p.ops) && WellFormed(view.ops) && view.genesis == p.genesis && view.epoch == w.epoch
    && view.ops.Keys == w.visible && Closed(p.ops, w.visible) && Covered(p.ops, view.clock) == w.visible
    && forall id :: id in view.ops ==> id in p.ops && view.ops[id] == p.ops[id]
  }

  lemma ClosedInView(p: Place, w: World, view: D.View, clock: Clock)
    requires Shows(p, w, view) && Closed(p.ops, Covered(p.ops, clock))
    ensures Closed(view.ops, Covered(view.ops, clock)) && Covered(view.ops, clock) <= Covered(p.ops, clock)
  {}

  /** Each record of a page may be delivered when those before it have been. */
  lemma PageDelivers(p: Place, w: World, view: D.View, clock: Clock, target: Clock, records: seq<Op>, n: nat)
    requires Shows(p, w, view) && n < |records|
    requires Closed(p.ops, Covered(p.ops, clock)) && Closed(p.ops, Covered(p.ops, target))
    requires LeadingPart(D.Before, D.Pending(view.ops, clock, target), records)
    ensures
      var now := D.Consume(clock, records[..n]);
      var id := records[n].id;
      && id in p.ops && p.ops[id] == records[n] && id !in Covered(p.ops, now) && records[n].deps <= Covered(p.ops, now)
      && D.Least(D.Pending(view.ops, now, target), records[n])
      && D.Consume(clock, records[..n + 1]) == Observe(now, records[n].actor, records[n].seq_)
  {
    var all := D.Pending(view.ops, clock, target);
    ClosedInView(p, w, view, clock);
    ClosedInView(p, w, view, target);
    D.CausalDelivery(view.ops, clock, target, records, n);
    LeadingPartPrefix(D.Before, all, records, n + 1);
    LeadingPartPrefix(D.Before, all, records, n);
    PrefixSplitsLast(records, n);
    D.LastIsLeast(all, records[..n + 1]);
    D.ConsumeLeading(view.ops, clock, target, records[..n]);
  }

  /** A page read from a cursor on the branch. */
  ghost predicate IsPage(view: D.View, state: D.Cursor, target: Clock, page: D.Catchup) {
    && D.OnBranch(view, state)
    && LeadingPart(D.Before, D.Pending(view.ops, state.clock, target), page.records)
    && (page.more <==> D.Pending(view.ops, D.Consume(state.clock, page.records), target) != {})
    && page.cursor == D.Cursor(view.epoch, view.genesis, state.clock, if page.more then Some(target) else None)
    && (page.more ==> page.records != []) && Bytes(page.records) <= D.PAGE_BYTES
  }

  /** Only a fenced or passed cursor, a missing position or an oversized next record keeps a page from being read. */
  method OpenPage(view: D.View, cursor: Option<D.Cursor>) returns (page: Result<D.Catchup, D.DeliveryError>)
    requires WellFormed(view.ops)
    ensures
      var state := D.Resume(view, cursor);
      var target := D.TargetOf(view, state);
      && (page.Ok? ==> IsPage(view, state, target, page.value))
      && (!D.OnBranch(view, state) || !D.Within(state.clock, target) ==> page == Err(D.Expired))
      && (D.OnBranch(view, state) && D.OnTheWay(view.ops, state.clock, target) ==> page != Err(D.Expired))
      && (page == Err(D.Capacity) ==> TooLarge(D.Pending(view.ops, state.clock, target)))
  {
    page := D.TopicRecordsSince(view, cursor);
    D.ReadsOn(view, cursor, page);
    assert forall clock :: D.Consume(clock, []) == clock;
  }

  /** The next record does not fit a page. */
  ghost predicate TooLarge(pending: set<Op>) {
    exists m :: D.Least(pending, m) && m.size > D.PAGE_BYTES
  }

  lemma ReadableFits(ops: Ops, clock: Clock, target: Clock)
    requires D.Readable(ops, clock, target)
    ensures !TooLarge(D.Pending(ops, clock, target))
  {}

  /** A whole page brings its target nearer. */
  lemma PageAdvances(view: D.View, state: D.Cursor, target: Clock, page: D.Catchup)
    requires WellFormed(view.ops) && IsPage(view, state, target, page)
    ensures
      var left := D.Pending(view.ops, D.Consume(state.clock, page.records), target);
      && (page.more ==> left < D.Pending(view.ops, state.clock, target))
      && (!page.more ==> left == {})
  {
    D.ConsumeLeading(view.ops, state.clock, target, page.records);
    if page.more {
      assert page.records[0] in Elements(page.records);
    }
  }

  /** Applying the record fails for now; `flaky` holds the records this happens to. */
  predicate Fails(op: Op, flaky: set<OpId>) {
    op.payload.GraphEvent? && op.id in flaky
  }

  predicate Restarts(view: D.View, cursor: D.Cursor, local: Actor) {
    cursor.genesis == view.genesis && cursor.epoch != view.epoch && Get(cursor.clock, local) <= Get(view.clock, local)
  }

  /** The cursor a pass starts from. */
  function Restarted(view: D.View, cursor: Option<D.Cursor>, local: Actor): Option<D.Cursor> {
    if cursor.Some? && Restarts(view, cursor.value, local) then Some(D.Cursor(view.epoch, view.genesis, map[], None))
    else cursor
  }

  /** A pass is fenced exactly by a cursor of another genesis, or of an earlier epoch while own records it consumed are lost. */
  lemma FencedIff(view: D.View, cursor: Option<D.Cursor>, local: Actor)
    ensures !D.OnBranch(view, D.Resume(view, Restarted(view, cursor, local))) <==>
              && cursor.Some?
              && (cursor.value.genesis != view.genesis
                  || (cursor.value.epoch != view.epoch && Get(cursor.value.clock, local) > Get(view.clock, local)))
  {}

  /** What a round has to do with the readability of its cursor, and what it leaves. */
  ghost predicate RoundEnds(view: D.View, target: Clock, flaky: set<OpId>, before: D.Cursor, after: D.Cursor,
                            r: Option<Result<Option<Op>, D.DeliveryError>>) {
    && (CanRead(view, before, target) ==> CanRead(view, after, target) && (r.Some? ==> r.value.Ok?))
    && (!D.OnBranch(view, before) ==> r == Some(Err(D.Expired)))
    && (r.None? ==>
          && D.Pending(view.ops, after.clock, target) < D.Pending(view.ops, before.clock, target)
          && target == D.TargetOf(view, after))
    && (r == Some(Ok(None)) ==> D.Pending(view.ops, after.clock, target) == {})
    && (r.Some? && r.value.Ok? && r.value.value.Some? ==>
          Fails(r.value.value.value, flaky) && D.Least(D.Pending(view.ops, after.clock, target), r.value.value.value))
    && NoneFailed(view.ops, before.clock, after.clock, target, flaky)
  }

  /** Going from one clock to another only records that do not fail were consumed. */
  ghost predicate NoneFailed(ops: Ops, before: Clock, after: Clock, target: Clock, flaky: set<OpId>) {
    && D.Pending(ops, after, target) <= D.Pending(ops, before, target)
    && forall x :: x in D.Pending(ops, before, target) && x !in D.Pending(ops, after, target) ==> !Fails(x, flaky)
  }

  ghost predicate CanRead(view: D.View, state: D.Cursor, target: Clock) {
    D.OnBranch(view, state) && D.Readable(view.ops, state.clock, target)
  }

  lemma RoundFailed(view: D.View, target: Clock, flaky: set<OpId>, before: D.Cursor, page: Result<D.Catchup, D.DeliveryError>)
    requires page.Err? && (!D.OnBranch(view, before) ==> page == Err(D.Expired))
    requires D.OnBranch(view, before) && D.OnTheWay(view.ops, before.clock, target) ==> page != Err(D.Expired)
    requires page == Err(D.Capacity) ==> TooLarge(D.Pending(view.ops, before.clock, target))
    ensures RoundEnds(view, target, flaky, before, before, Some(Err(page.error)))
  {
    if D.Readable(view.ops, before.clock, target) {
      ReadableFits(view.ops, before.clock, target);
    }
    match page.error {
      case Expired =>
      case Capacity =>
    }
  }

  /** Reads the page of a round; a failure ends the round. */
  method RoundPage(view: D.View, cursor: Option<D.Cursor>, ghost target: Clock, ghost flaky: set<OpId>)
    returns (page: Result<D.Catchup, D.DeliveryError>)
    requires WellFormed(view.ops) && target == D.TargetOf(view, D.Resume(view, cursor))
    ensures page.Ok? ==> IsPage(view, D.Resume(view, cursor), target, page.value)
    ensures page.Err? ==>
              RoundEnds(view, target, flaky, D.Resume(view, cursor), D.Resume(view, cursor), Some(Err(page.error)))
  {
    page := OpenPage(view, cursor);
    if page.Err? {
      RoundFailed(view, target, flaky, D.Resume(view, cursor), page);
    }
  }

  lemma ConsumedPass(view: D.View, clock: Clock, target: Clock, flaky: set<OpId>, records: seq<Op>, count: nat)
    requires WellFormed(view.ops) && LeadingPart(D.Before, D.Pending(view.ops, clock, target), records) && count <= |records|
    requires forall i :: 0 <= i < count ==> !Fails(records[i], flaky)
    ensures NoneFailed(view.ops, clock, D.Consume(clock, records[..count]), target, flaky)
  {
    LeadingPartPrefix(D.Before, D.Pending(view.ops, clock, target), records, count);
    D.ConsumeLeading(view.ops, clock, target, records[..count]);
  }

  lemma RoundRead(view: D.View, target: Clock, flaky: set<OpId>, before: D.Cursor, page: D.Catchup, count: nat,
                  stalled: Option<Op>, after: D.Cursor)
    requires WellFormed(view.ops) && IsPage(view, before, target, page) && target == D.TargetOf(view, before)
    requires count <= |page.records| && (stalled.None? ==> count == |page.records|)
    requires after == if count == 0 then before else page.cursor.(clock := D.Consume(page.cursor.clock, page.records[..count]))
    requires stalled.Some? ==> Fails(stalled.value, flaky) && D.Least(D.Pending(view.ops, after.clock, target), stalled.value)
    requires forall i :: 0 <= i < count ==> !Fails(page.records[i], flaky)
    ensures RoundEnds(view, target, flaky, before, after, if stalled.Some? || !page.more then Some(Ok(stalled)) else None)
  {
    PageAdvances(view, before, target, page);
    assert page.records[..|page.records|] == page.records;
    assert D.Consume(before.clock, page.records[..0]) == before.clock;
    ConsumedPass(view, before.clock, target, flaky, page.records, count);
    if CanRead(view, before, target) {
      D.ReadableOn(view.ops, before.clock, target, page.records, count);
    }
  }

  /** Where a pass stands between rounds. */
  ghost predicate Passing(view: D.View, target: Clock, flaky: set<OpId>, start: D.Cursor, now: D.Cursor) {
    && target == D.TargetOf(view, now)
    && (CanRead(view, start, target) ==> CanRead(view, now, target))
    && (!D.OnBranch(view, start) ==> now == start)
    && NoneFailed(view.ops, start.clock, now.clock, target, flaky)
  }

  /**
   A readable pass succeeds. It ends with its clock at the target exactly when no
   graph event on the way fails; otherwise the first that does is the next one.
   */
  ghost predicate PassEnds(view: D.View, target: Clock, flaky: set<OpId>, start: D.Cursor, after: D.Cursor,
                           r: Result<Option<Op>, D.DeliveryError>) {
    && (CanRead(view, start, target) ==>
          && r.Ok?
          && (r.value.None? <==> forall a: Actor :: Get(after.clock, a) == Get(target, a))
          && (r.value.None? <==> forall x :: x in D.Pending(view.ops, start.clock, target) && x.payload.GraphEvent? ==> x.id !in flaky))
    && (r == Ok(None) ==> D.Pending(view.ops, after.clock, target) == {})
    && (r.Ok? && r.value.Some? ==>
          && r.value.value.payload.GraphEvent? && r.value.value.id in flaky
          && D.Least(D.Pending(view.ops, after.clock, target), r.value.value))
    && (!D.OnBranch(view, start) ==> r == Err(D.Expired))
  }

  lemma NoneFailedOn(ops: Ops, start: Clock, before: Clock, after: Clock, target: Clock, flaky: set<OpId>)
    requires NoneFailed(ops, start, before, target, flaky) && NoneFailed(ops, before, after, target, flaky)
    ensures NoneFailed(ops, start, after, target, flaky)
  {}

  lemma StallIff(ops: Ops, start: Clock, after: Clock, target: Clock, flaky: set<OpId>, stalled: Option<Op>)
    requires NoneFailed(ops, start, after, target, flaky)
    requires if stalled.None? then D.Pending(ops, after, target) == {}
             else stalled.value in D.Pending(ops, after, target) && Fails(stalled.value, flaky)
    ensures stalled.None? <==> forall x :: x in D.Pending(ops, start, target) && x.payload.GraphEvent? ==> x.id !in flaky
  {
    if stalled.Some? {
      assert stalled.value in D.Pending(ops, start, target);
    }
  }

  lemma PassOver(view: D.View, target: Clock, flaky: set<OpId>, start: D.Cursor, before: D.Cursor, after: D.Cursor,
                 r: Result<Option<Op>, D.DeliveryError>)
    requires WellFormed(view.ops) && Passing(view, target, flaky, start, before)
    requires RoundEnds(view, target, flaky, before, after, Some(r))
    ensures PassEnds(view, target, flaky, start, after, r)
  {
    NoneFailedOn(view.ops, start.clock, before.clock, after.clock, target, flaky);
    if r.Ok? {
      StallIff(view.ops, start.clock, after.clock, target, flaky, r.value);
    }
    if CanRead(view, start, target) {
      D.ReadToTheEnd(view.ops, after.clock, target);
    }
  }

  lemma PassGoesOn(view: D.View, target: Clock, flaky: set<OpId>, start: D.Cursor, before: D.Cursor, after: D.Cursor)
    requires Passing(view, target, flaky, start, before) && RoundEnds(view, target, flaky, before, after, None)
    ensures Passing(view, target, flaky, start, after)
    ensures D.Pending(view.ops, after.clock, target) < D.Pending(view.ops, before.clock, target)
    ensures D.OnBranch(view, start)
  {
    NoneFailedOn(view.ops, start.clock, before.clock, after.clock, target, flaky);
  }

  class Replica {
    const graph: nat
    const genesis: OpId
    const local: Actor
    ghost const ops: Ops
    var store: Store
    /** The steps since the empty store, and the world they led to. */
    ghost var steps: seq<Step>
    ghost var world: World

    ghost function Here(): Place {
      Place(ops, graph, genesis, local)
    }

    ghost predicate Running()
      reads this
    {
      WellFormed(ops) && Run(Here(), START, steps, world) && world.trail != []
    }

    ghost predicate Valid()
      reads this
    {
      Running() && Last(world) == store
    }

    /** A replica is always somewhere in a run, so the invariant of all runs holds. */
    lemma IsSafe()
      requires Running()
      ensures Inv(Here(), world)
    {
      StartIsGood(Here());
      RunKeeps(Here(), START, steps, world);
    }

    constructor (graph: nat, genesis: OpId, local: Actor, ghost ops: Ops)
      requires WellFormed(ops)
      ensures Valid() && store == EMPTY && world == START && steps == []
      ensures Here() == Place(ops, graph, genesis, local)
    {
      this.graph, this.genesis, this.local, this.ops := graph, genesis, local, ops;
      store, steps, world := EMPTY, [], START;
    }

    /** Every change of the store is a step of the machine. */
    ghost method Step(step: Step)
      requires Running() && Enabled(Here(), world, step)
      modifies this`steps, this`world
      ensures Running() && world == Next(Here(), old(world), step) && steps == old(steps) + [step]
    {
      RunAppend(Here(), START, steps, world, step);
      steps, world := steps + [step], Next(Here(), world, step);
    }

    /** One record of a page: skipped, refused with its cursor in one commit, or applied. */
    method DeliverRecord(op: Op, cursor: D.Cursor) returns (next: D.Cursor)
      requires Valid() && world.session == Some(cursor)
      requires op.id in ops && ops[op.id] == op && Enabled(Here(), world, Deliver(op.id))
      modifies this`store, this`steps, this`world
      ensures Valid() && world.session == Some(next) && next == Consumed(cursor, op)
      ensures world.visible == old(world.visible) && world.epoch == old(world.epoch) && old(steps) <= steps
      ensures store == Settle(old(store), op, next, graph) && Does(old(store), op, graph, next, store)
    {
      next := Consumed(cursor, op);
      SettleDoes(store, op, next, graph);
      if op.payload.Control? {
      } else if Rejects(store, op, graph) {
        store := Refuse(store, op, next);
      } else {
        store := Take(store, op, graph);
      }
      Step(Deliver(op.id));
      // The rejection is persisted before the pass goes on.
      if !op.payload.Control? && old(Rejects(store, op, graph)) {
        Step(Persist);
      }
    }

    /** Records in order until one fails in a way a retry could clear. */
    method DeliverPage(view: D.View, records: seq<Op>, start: D.Cursor, ghost target: Clock, flaky: set<OpId>)
      returns (cursor: D.Cursor, count: nat)
      requires Valid() && Shows(Here(), world, view) && world.session == Some(start)
      requires Closed(ops, Covered(ops, target)) && Closed(ops, Covered(ops, start.clock))
      requires LeadingPart(D.Before, D.Pending(view.ops, start.clock, target), records)
      modifies this`store, this`steps, this`world
      ensures Valid() && Shows(Here(), world, view) && world.session == Some(cursor) && old(steps) <= steps
      ensures count <= |records| && cursor == start.(clock := D.Consume(start.clock, records[..count]))
      ensures count < |records| ==> Fails(records[count], flaky)
      ensures forall i :: 0 <= i < count ==> !Fails(records[i], flaky)
      ensures count == 0 ==> store == old(store)
    {
      cursor, count := start, 0;
      while count < |records|
        invariant Valid() && Shows(Here(), world, view) && world.session == Some(cursor) && old(steps) <= steps
        invariant count <= |records| && cursor == start.(clock := D.Consume(start.clock, records[..count]))
        invariant forall i :: 0 <= i < count ==> !Fails(records[i], flaky)
        invariant count == 0 ==> store == old(store)
      {
        PageDelivers(Here(), world, view, start.clock, target, records, count);
        if Fails(records[count], flaky) {
          return;
        }
        cursor := DeliverRecord(records[count], cursor);
        count := count + 1;
      }
    }

    /** What is consumed is written and persisted; a page that consumed nothing leaves the stored cursor alone. */
    method SaveCursor(cursor: D.Cursor, count: nat)
      requires Valid() && world.session == Some(cursor)
      modifies this`store, this`steps, this`world
      ensures Valid() && world == old(world).(trail := world.trail) && old(steps) <= steps
      ensures store == if count > 0 then old(store).(cursor := Some(cursor)) else old(store)
    {
      if count > 0 {
        store := store.(cursor := Some(cursor));
        Step(WriteCursor);
        Step(Persist);
      }
    }

    method BeginPass(view: D.View, start: D.Cursor)
      requires Valid() && Shows(Here(), world, view) && D.OnBranch(view, D.Resume(view, store.cursor))
      requires start == D.Cursor(view.epoch, view.genesis, D.Resume(view, store.cursor).clock, start.target)
      requires start.target.Some? ==> Closed(ops, Covered(ops, start.target.value))
      modifies this`steps, this`world
      ensures Valid() && Shows(Here(), world, view) && old(steps) <= steps && world.session == Some(start)
      ensures Closed(ops, Covered(ops, start.clock))
    {
      IsSafe();
      NothingCovered(ops);
      assert Good(Here(), world.trail[|world.trail| - 1]);
      Step(Begin(start.target));
    }

    /** One page: read it, deliver it, save the cursor. */
    method ReconcilePage(view: D.View, flaky: set<OpId>, page: D.Catchup, ghost target: Clock)
      returns (stalled: Option<Op>, ghost count: nat)
      requires Valid() && Shows(Here(), world, view) && Closed(ops, Covered(ops, target))
      requires IsPage(view, D.Resume(view, store.cursor), target, page)
      modifies this`store, this`steps, this`world
      ensures Valid() && Shows(Here(), world, view) && old(steps) <= steps
      ensures stalled.Some? ==>
                && Fails(stalled.value, flaky)
                && D.Least(D.Pending(view.ops, D.Resume(view, store.cursor).clock, target), stalled.value)
      ensures count <= |page.records| && (stalled.None? ==> count == |page.records|)
      ensures forall i :: 0 <= i < count ==> !Fails(page.records[i], flaky)
      ensures store.cursor == if count == 0 then old(store.cursor)
                              else Some(page.cursor.(clock := D.Consume(page.cursor.clock, page.records[..count])))
    {
      BeginPass(view, page.cursor);
      var cursor, delivered := DeliverPage(view, page.records, page.cursor, target, flaky);
      SaveCursor(cursor, delivered);
      count := delivered;
      if delivered < |page.records| {
        PageDelivers(Here(), world, view, page.cursor.clock, target, page.records, delivered);
        return Some(page.records[delivered]), count;
      }
      return None, count;
    }

    /** `restart_cursor`: an earlier epoch of the same genesis, once the own records are back. */
    method RestartCursor(view: D.View)
      requires Valid() && Shows(Here(), world, view)
      modifies this`store, this`steps, this`world
      ensures Valid() && Shows(Here(), world, view) && old(steps) <= steps
      ensures store == old(store).(cursor := Restarted(view, old(store.cursor), local))
      ensures
        var cursor := old(store.cursor);
        if cursor.Some? && cursor.value.genesis == view.genesis && cursor.value.epoch != view.epoch
           && Get(cursor.value.clock, local) <= Get(view.clock, local)
        then store.cursor == Some(D.Cursor(view.epoch, view.genesis, map[], None))
        else store == old(store)
    {
      if store.cursor.Some? && Restarts(view, store.cursor.value, local) {
        store := store.(cursor := Restarted(view, store.cursor, local));
        Step(Restart);
        Step(Persist);
      }
    }

    /** A pass heads for a causally closed set. */
    lemma TargetIsClosed(view: D.View)
      requires Valid() && Shows(Here(), world, view)
      ensures Closed(ops, Covered(ops, D.TargetOf(view, D.Resume(view, store.cursor))))
    {
      IsSafe();
      assert Good(Here(), world.trail[|world.trail| - 1]);
    }

    /** One round of a pass: `None` when there is another page to read. */
    method ReconcileRound(view: D.View, flaky: set<OpId>, ghost target: Clock)
      returns (r: Option<Result<Option<Op>, D.DeliveryError>>)
      requires Valid() && Shows(Here(), world, view) && Closed(ops, Covered(ops, target))
      requires target == D.TargetOf(view, D.Resume(view, store.cursor))
      modifies this`store, this`steps, this`world
      ensures Valid() && Shows(Here(), world, view) && old(steps) <= steps
      ensures RoundEnds(view, target, flaky, D.Resume(view, old(store.cursor)), D.Resume(view, store.cursor), r)
      ensures r.Some? && r.value.Err? ==> store == old(store)
    {
      ghost var before := D.Resume(view, store.cursor);
      var page := RoundPage(view, store.cursor, target, flaky);
      if page.Err? {
        return Some(Err(page.error));
      }
      var stalled;
      ghost var count;
      stalled, count := ReconcilePage(view, flaky, page.value, target);
      RoundRead(view, target, flaky, before, page.value, count, stalled, D.Resume(view, store.cursor));
      r := if stalled.Some? || !page.value.more then Some(Ok(stalled)) else None;
    }

    method EndPass()
      requires Valid()
      modifies this`steps, this`world
      ensures Valid() && old(steps) <= steps
    {
      Step(End);
    }

    /** Page after page, until something is over. */
    method ReconcileRounds(view: D.View, flaky: set<OpId>, ghost start: D.Cursor, ghost target: Clock)
      returns (r: Result<Option<Op>, D.DeliveryError>)
      requires Valid() && Shows(Here(), world, view) && Closed(ops, Covered(ops, target))
      requires start == D.Resume(view, store.cursor) && target == D.TargetOf(view, start)
      modifies this`store, this`steps, this`world
      ensures Valid() && old(steps) <= steps
      ensures PassEnds(view, target, flaky, start, D.Resume(view, store.cursor), r)
      ensures !D.OnBranch(view, start) ==> store == old(store)
    {
      while true
        invariant Valid() && Shows(Here(), world, view) && old(steps) <= steps
        invariant Passing(view, target, flaky, start, D.Resume(view, store.cursor))
        invariant !D.OnBranch(view, start) ==> store == old(store)
        decreases D.Pending(view.ops, D.Resume(view, store.cursor).clock, target)
      {
        ghost var before := D.Resume(view, store.cursor);
        var end := ReconcileRound(view, flaky, target);
        if end.Some? {
          PassOver(view, target, flaky, start, before, D.Resume(view, store.cursor), end.value);
          return end.value;
        }
        PassGoesOn(view, target, flaky, start, before, D.Resume(view, store.cursor));
      }
    }

    /**
     A whole pass. Every commit in it is a step of the machine, so every store a
     crash could leave is good. A readable pass succeeds; without a stall it ends
     with nothing pending and the clock at the target, and a stall leaves the
     cursor just before the failing record.
     */
    method ReconcileTopic(view: D.View, flaky: set<OpId>) returns (r: Result<Option<Op>, D.DeliveryError>)
      requires Valid() && Shows(Here(), world, view)
      modifies this`store, this`steps, this`world
      ensures Valid() && old(steps) <= steps
      ensures
        var start := D.Resume(view, Restarted(view, old(store.cursor), local));
        PassEnds(view, D.TargetOf(view, start), flaky, start, D.Resume(view, store.cursor), r)
      ensures !D.OnBranch(view, D.Resume(view, Restarted(view, old(store.cursor), local))) ==> store == old(store)
    {
      RestartCursor(view);
      TargetIsClosed(view);
      ghost var start := D.Resume(view, store.cursor);
      r := ReconcileRounds(view, flaky, start, D.TargetOf(view, start));
      EndPass();
    }
  }
}

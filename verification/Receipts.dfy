/** Mutation receipts: finding a prepared record again, and publishing each restore once. */
module Receipts {
  import opened Wrappers
  import opened Clocks
  import opened Topics
  import opened Listings
  import opened Passes
  import D = Delivery

  // ----- find_mutation -----

  /** What a receipt keeps of the branch and frontier it was prepared on. */
  datatype Prepared = Prepared(id: nat, after: Clock, epoch: nat, genesis: OpId, event: Option<OpId>)

  datatype FindError = ExpiredBranch | WrongEvent | RejectedOwn | Unreadable(error: D.DeliveryError)

  predicate Carries(op: Op, id: nat) {
    op.payload.GraphEvent? && op.payload.body.Mutation? && op.payload.body.id == id
  }

  /** The search stops here: the own record it looks for, or an own record nobody can read. */
  predicate Stops(op: Op, local: Actor, id: nat) {
    op.actor == local && (Carries(op, id) || op.payload.Undecodable?)
  }

  /** `op` is the first own record that stops the search. */
  ghost predicate FirstStop(all: set<Op>, local: Actor, id: nat, op: Op) {
    op in all && Stops(op, local, id) && forall x :: x in all && x.actor == local && x.seq_ < op.seq_ ==> !Stops(x, local, id)
  }

  method StopOnPage(records: seq<Op>, local: Actor, id: nat) returns (k: nat)
    ensures k <= |records| && forall i :: 0 <= i < k ==> !Stops(records[i], local, id)
    ensures k < |records| ==> Stops(records[k], local, id)
  {
    k := 0;
    while k < |records| && !Stops(records[k], local, id)
      invariant k <= |records| && forall i :: 0 <= i < k ==> !Stops(records[i], local, id)
    {
      k := k + 1;
    }
  }

  lemma StopIsFirst(ops: Ops, clock: Clock, target: Clock, listed: seq<Op>, n: nat, local: Actor, id: nat)
    requires WellFormed(ops) && LeadingPart(D.Before, D.Pending(ops, clock, target), listed) && n < |listed|
    requires Stops(listed[n], local, id) && forall i :: 0 <= i < n ==> !Stops(listed[i], local, id)
    ensures FirstStop(D.Pending(ops, clock, target), local, id, listed[n])
  {
    var all, op := D.Pending(ops, clock, target), listed[n];
    assert op in Elements(listed);
    forall x | x in all && x.actor == local && x.seq_ < op.seq_ ensures !Stops(x, local, id) {
      ActorChain(ops, x.id, op.id);
      assert x !in listed ==> D.Before(op, x);
      var j :| 0 <= j < |listed| && listed[j] == x;
      assert n < j ==> D.Before(op, x);
    }
  }

  /** How far the search has read: a leading part of the records after the receipt's frontier, none of which stops it. */
  ghost predicate Searched(view: D.View, local: Actor, receipt: Prepared, done: seq<Op>) {
    && LeadingPart(D.Before, D.Pending(view.ops, receipt.after, view.clock), done)
    && forall i :: 0 <= i < |done| ==> !Stops(done[i], local, receipt.id)
  }

  lemma SearchStops(view: D.View, local: Actor, receipt: Prepared, done: seq<Op>, page: seq<Op>, k: nat)
    requires WellFormed(view.ops) && Searched(view, local, receipt, done) && k < |page|
    requires LeadingPart(D.Before, D.Pending(view.ops, D.Consume(receipt.after, done), view.clock), page)
    requires Stops(page[k], local, receipt.id) && forall i :: 0 <= i < k ==> !Stops(page[i], local, receipt.id)
    ensures FirstStop(D.Pending(view.ops, receipt.after, view.clock), local, receipt.id, page[k])
  {
    var listed, n := done + page, |done| + k;
    assert listed[n] == page[k];
    assert forall i :: 0 <= i < n ==> listed[i] == if i < |done| then done[i] else page[i - |done|];
    assert forall i :: 0 <= i < n ==> !Stops(listed[i], local, receipt.id);
    assert LeadingPart(D.Before, D.Pending(view.ops, receipt.after, view.clock), listed) by {
      D.PagesJoin(view.ops, receipt.after, view.clock, done, page);
    }
    StopIsFirst(view.ops, receipt.after, view.clock, listed, n, local, receipt.id);
  }

  lemma SearchGoesOn(view: D.View, local: Actor, receipt: Prepared, done: seq<Op>, page: seq<Op>)
    requires WellFormed(view.ops) && Searched(view, local, receipt, done)
    requires LeadingPart(D.Before, D.Pending(view.ops, D.Consume(receipt.after, done), view.clock), page)
    requires forall i :: 0 <= i < |page| ==> !Stops(page[i], local, receipt.id)
    ensures Searched(view, local, receipt, done + page)
    ensures D.Consume(receipt.after, done + page) == D.Consume(D.Consume(receipt.after, done), page)
  {
    D.PagesJoin(view.ops, receipt.after, view.clock, done, page);
  }

  lemma SearchEnds(view: D.View, local: Actor, receipt: Prepared, done: seq<Op>)
    requires WellFormed(view.ops) && Searched(view, local, receipt, done)
    requires D.Pending(view.ops, D.Consume(receipt.after, done), view.clock) == {}
    ensures forall x :: x in D.Pending(view.ops, receipt.after, view.clock) ==> !Stops(x, local, receipt.id)
  {
    D.WholeWhenNothingPending(view.ops, receipt.after, view.clock, done);
    forall x | x in D.Pending(view.ops, receipt.after, view.clock) ensures !Stops(x, local, receipt.id) {
      assert x in Elements(done);
    }
  }

  ghost predicate Answers(view: D.View, local: Actor, receipt: Prepared, r: Result<Option<Op>, FindError>) {
    var all := D.Pending(view.ops, receipt.after, view.clock);
    match r
    case Ok(None) => forall x :: x in all ==> !Stops(x, local, receipt.id)
    case Ok(Some(op)) => FirstStop(all, local, receipt.id, op) && Carries(op, receipt.id)
    case Err(RejectedOwn) => exists x :: FirstStop(all, local, receipt.id, x) && x.payload.Undecodable?
    case Err(error) => error.Unreadable?
  }

  method SearchPage(view: D.View, local: Actor, receipt: Prepared, records: seq<Op>, ghost done: seq<Op>)
    returns (r: Option<Result<Option<Op>, FindError>>)
    requires WellFormed(view.ops) && Searched(view, local, receipt, done)
    requires LeadingPart(D.Before, D.Pending(view.ops, D.Consume(receipt.after, done), view.clock), records)
    ensures r.Some? ==> Answers(view, local, receipt, r.value) && (r.value.Ok? || r.value == Err(RejectedOwn))
    ensures r.None? ==>
              && Searched(view, local, receipt, done + records)
              && D.Consume(receipt.after, done + records) == D.Consume(D.Consume(receipt.after, done), records)
  {
    var k := StopOnPage(records, local, receipt.id);
    if k < |records| {
      SearchStops(view, local, receipt, done, records, k);
      return Some(if Carries(records[k], receipt.id) then Ok(Some(records[k])) else Err(RejectedOwn));
    }
    SearchGoesOn(view, local, receipt, done, records);
    return None;
  }

  /** One page of the search, which a readable topic always gives, and readable it stays. */
  method NextPage(view: D.View, cursor: D.Cursor) returns (page: Result<D.Catchup, D.DeliveryError>)
    requires WellFormed(view.ops) && D.OnBranch(view, cursor) && cursor.target == Some(view.clock)
    ensures page.Ok? ==> IsPage(view, cursor, view.clock, page.value)
    ensures D.Readable(view.ops, cursor.clock, view.clock) ==>
              page.Ok? && D.Readable(view.ops, D.Consume(cursor.clock, page.value.records), view.clock)
  {
    page := OpenPage(view, Some(cursor));
    if page.Ok? {
      if D.Readable(view.ops, cursor.clock, view.clock) {
        D.ReadableOn(view.ops, cursor.clock, view.clock, page.value.records, |page.value.records|);
        assert page.value.records[..|page.value.records|] == page.value.records;
      }
    } else {
      RoundFailed(view, view.clock, {}, cursor, page);
    }
  }

  /** The first own record after the receipt's frontier that carries its id, if no unreadable own record comes first. */
  method SearchOwn(view: D.View, local: Actor, receipt: Prepared) returns (r: Result<Option<Op>, FindError>)
    requires WellFormed(view.ops) && view.epoch == receipt.epoch && view.genesis == receipt.genesis
    ensures Answers(view, local, receipt, r)
    ensures D.Readable(view.ops, receipt.after, view.clock) ==> r.Ok? || r == Err(RejectedOwn)
  {
    var cursor := D.Cursor(receipt.epoch, receipt.genesis, receipt.after, Some(view.clock));
    ghost var done: seq<Op> := [];
    while true
      invariant cursor == D.Cursor(view.epoch, view.genesis, D.Consume(receipt.after, done), Some(view.clock))
      invariant Searched(view, local, receipt, done)
      invariant D.Readable(view.ops, receipt.after, view.clock) ==> D.Readable(view.ops, cursor.clock, view.clock)
      decreases D.Pending(view.ops, cursor.clock, view.clock)
    {
      var page := NextPage(view, cursor);
      if page.Err? {
        return Err(Unreadable(page.error));
      }
      var records := page.value.records;
      PageAdvances(view, cursor, view.clock, page.value);
      var stop := SearchPage(view, local, receipt, records, done);
      if stop.Some? {
        return stop.value;
      }
      done := done + records;
      if !page.value.more {
        SearchEnds(view, local, receipt, done);
        return Ok(None);
      }
      cursor := cursor.(clock := D.Consume(cursor.clock, records));
    }
  }

  /** Everything the search promises. */
  ghost predicate Finds(view: D.View, local: Actor, receipt: Prepared, r: Result<Option<Op>, FindError>) {
    if view.epoch != receipt.epoch || view.genesis != receipt.genesis then r == Err(ExpiredBranch)
    else
      match receipt.event
      case Some(event) =>
        r == (if event !in view.ops then Err(ExpiredBranch)
              else if Carries(view.ops[event], receipt.id) then Ok(Some(view.ops[event]))
              else Err(WrongEvent))
      case None =>
        && Answers(view, local, receipt, r)
        && (D.Readable(view.ops, receipt.after, view.clock) ==> r.Ok? || r == Err(RejectedOwn))
  }

  method FindMutation(view: D.View, local: Actor, receipt: Prepared) returns (r: Result<Option<Op>, FindError>)
    requires WellFormed(view.ops)
    ensures Finds(view, local, receipt, r)
  {
    if view.epoch != receipt.epoch || view.genesis != receipt.genesis {
      return Err(ExpiredBranch);
    }
    if receipt.event.Some? {
      if receipt.event.value !in view.ops {
        return Err(ExpiredBranch);
      }
      var op := view.ops[receipt.event.value];
      return if Carries(op, receipt.id) then Ok(Some(op)) else Err(WrongEvent);
    }
    r := SearchOwn(view, local, receipt);
  }

  /** The record is a mutation with this id. */
  ghost predicate IsMutationOf(op: Op, id: nat) {
    exists g, wellFormed, changes, hints :: op.payload == GraphEvent(g, wellFormed, Mutation(id, changes, hints))
  }

  lemma CarriesIff(op: Op, id: nat)
    ensures Carries(op, id) <==> IsMutationOf(op, id)
  {
    if Carries(op, id) {
      assert op.payload == GraphEvent(op.payload.graph, op.payload.wellFormed, Mutation(id, op.payload.body.changes, op.payload.body.hints));
    }
  }

  /**
   What a search without a bound event tells of the own records past the receipt's
   frontier: the first one that is a mutation with the id or that nobody can read.
   */
  lemma FoundMeans(view: D.View, local: Actor, receipt: Prepared, r: Result<Option<Op>, FindError>, x: OpId)
    requires D.ValidView(view) && Finds(view, local, receipt, r) && receipt.event.None?
    requires x in view.ops && view.ops[x].actor == local && view.ops[x].seq_ > Get(receipt.after, local)
    ensures r == Ok(None) ==> !IsMutationOf(view.ops[x], receipt.id) && view.ops[x].payload != Undecodable
    ensures r.Ok? && r.value.Some? ==>
              && r.value.value.id in view.ops && view.ops[r.value.value.id] == r.value.value
              && IsMutationOf(r.value.value, receipt.id) && r.value.value.actor == local
              && (view.ops[x].seq_ < r.value.value.seq_ ==>
                    !IsMutationOf(view.ops[x], receipt.id) && view.ops[x].payload != Undecodable)
  {
    CarriesIff(view.ops[x], receipt.id);
    assert x in Covered(view.ops, view.clock);
    assert r.Ok? ==> view.ops[x] in D.Pending(view.ops, receipt.after, view.clock);
    if r.Ok? && r.value.Some? {
      CarriesIff(r.value.value, receipt.id);
    }
  }
}

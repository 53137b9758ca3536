/** How `history_snapshot` ends and what its rows hold, told by the topic's records. */
module Outcomes {
  import opened Wrappers
  import opened Clocks
  import opened OrSet
  import opened Topics
  import opened Listings
  import opened Snapshots
  import opened Shown
  import D = Delivery

  /** After `front`, every content on the way through the record's changes is within the row and byte limits. */
  ghost predicate FitsAfter(ops: Ops, front: seq<Op>, op: Op, graph: nat) {
    var s := Meaning(EventSet(ops, Ids(front), graph, {}));
    var cs := ChangesTo(op, graph, {});
    forall i: nat :: i <= |cs| ==> FitsAt(s, Event(Dot(op.actor, op.seq_), op.observed, [], None), cs, i)
  }

  lemma {:induction false} SameStamp(s: Content, e: Event, f: Event, cs: seq<Change>)
    requires e.dot == f.dot && e.base == f.base
    ensures ApplyChanges(s, e, cs) == ApplyChanges(s, f, cs)
  {
    if cs != [] {
      SameStamp(s, e, f, cs[..|cs| - 1]);
    }
  }

  ghost predicate FitsAt(s: Content, e: Event, cs: seq<Change>, i: nat)
    requires i <= |cs|
  {
    ContentFits(ApplyChanges(s, e, cs[..i]))
  }

  lemma {:induction false} ChangesFitIff(s: Content, e: Event, cs: seq<Change>)
    ensures ChangesFit(s, e, cs) <==> forall i: nat :: i <= |cs| ==> FitsAt(s, e, cs, i)
  {
    var n := |cs|;
    assert cs[..n] == cs;
    assert FitsAt(s, e, cs, n) <==> ContentFits(ApplyChanges(s, e, cs));
    if n > 0 {
      var front := cs[..n - 1];
      ChangesFitIff(s, e, front);
      forall i: nat | i < n ensures FitsAt(s, e, front, i) <==> FitsAt(s, e, cs, i) {
        assert front[..i] == cs[..i];
      }
    }
  }

  /** What is read so far is the meaning of the records read. */
  lemma FrontMeans(view: D.View, front: seq<Op>, graph: nat)
    requires D.ValidView(view) && LeadingPart(D.Before, Everything(view), front)
    ensures Replay(EventsOf(front, graph, {})) == Meaning(EventSet(view.ops, Ids(front), graph, {}))
  {
    forall i | 0 <= i < |front| ensures front[i].id in view.ops && view.ops[front[i].id] == front[i] {
      assert front[i] in Elements(front);
    }
    D.DeliveredIsCausal(view.ops, front);
    CausalOpsReplay(view.ops, front, graph, {});
  }

  lemma EventFitsIff(ops: Ops, front: seq<Op>, op: Op, graph: nat)
    requires Replayed(op, graph, {}) && Replay(EventsOf(front, graph, {})) == Meaning(EventSet(ops, Ids(front), graph, {}))
    ensures EventFits(Replay(EventsOf(front, graph, {})), EventOf(op)) <==> FitsAfter(ops, front, op, graph)
  {
    var s, e := Replay(EventsOf(front, graph, {})), EventOf(op);
    var stamp := Event(Dot(op.actor, op.seq_), op.observed, [], None);
    EventIs(op, graph, {});
    ChangesFitIff(s, e, e.changes);
    forall i: nat | i <= |e.changes| ensures FitsAt(s, e, e.changes, i) <==> FitsAt(s, stamp, e.changes, i) {
      SameStamp(s, e, stamp, e.changes[..i]);
    }
  }

  /** The records read so far left a content within the limits. */
  lemma {:induction false} PassedFits(done: seq<Op>, graph: nat)
    requires AllPass(done, graph)
    ensures ContentFits(Replay(EventsOf(done, graph, {})))
  {
    if done == [] {
      assert Keys({}) == {} && SumTerms({}) == 0;
    } else {
      var front, last := done[..|done| - 1], done[|done| - 1];
      assert done == front + [last];
      PassedFits(front, graph);
      AllPassLonger(front, last, graph);
    }
  }

  /** A record of which a snapshot can be made, as far as its payload and size go. */
  predicate Usable(op: Op, graph: nat) {
    && op.size <= D.PAGE_BYTES
    && match op.payload
       case Control => true
       case Undecodable => false
       case GraphEvent(g, wellFormed, body) => g == graph && (body.Policy? || (body.Mutation? && wellFormed))
  }

  lemma PassesIff(view: D.View, front: seq<Op>, op: Op, graph: nat)
    requires D.ValidView(view) && LeadingPart(D.Before, Everything(view), front) && AllPass(front, graph)
    ensures Passes(Replay(EventsOf(front, graph, {})), op, graph) <==> Usable(op, graph) && FitsAfter(view.ops, front, op, graph)
  {
    FrontMeans(view, front, graph);
    PassedFits(front, graph);
    EventIs(op, graph, {});
    if Replayed(op, graph, {}) {
      EventFitsIff(view.ops, front, op, graph);
    } else {
      assert FitsAfter(view.ops, front, op, graph);
    }
  }

  lemma PassedAt(view: D.View, graph: nat, done: seq<Op>, i: nat)
    requires D.ValidView(view) && LeadingPart(D.Before, Everything(view), done) && AllPass(done, graph) && i < |done|
    ensures Usable(done[i], graph) && FitsAfter(view.ops, done[..i], done[i], graph)
  {
    AllPassAt(done, i, graph);
    LeadingPartPrefix(D.Before, Everything(view), done, i);
    PassesIff(view, done[..i], done[i], graph);
  }

  ghost predicate AllFit(view: D.View, graph: nat) {
    forall front, op :: LeadingPart(D.Before, Everything(view), front + [op]) ==> FitsAfter(view.ops, front, op, graph)
  }

  lemma WholeFits(view: D.View, graph: nat, done: seq<Op>)
    requires D.ValidView(view) && LeadingPart(D.Before, Everything(view), done) && AllPass(done, graph)
    requires Elements(done) == Everything(view)
    ensures AllFit(view, graph)
  {
    D.BeforeIsStrict();
    forall front, op | LeadingPart(D.Before, Everything(view), front + [op]) ensures FitsAfter(view.ops, front, op, graph) {
      var n, longer := |front|, front + [op];
      LeadingPartFits(D.Before, Everything(view), done, longer);
      LeadingPartUnique(D.Before, Everything(view), longer, done);
      assert longer[..n] == front && longer[n] == op;
      assert done[..n] == longer[..n] && done[n] == longer[n];
      PassedAt(view, graph, done, n);
    }
  }

  lemma WholeUsable(view: D.View, graph: nat, done: seq<Op>, id: OpId)
    requires D.ValidView(view) && LeadingPart(D.Before, Everything(view), done) && AllPass(done, graph)
    requires Elements(done) == Everything(view) && id in view.ops
    ensures Usable(view.ops[id], graph)
  {
    AllListed(view, done);
    var i :| 0 <= i < |done| && done[i] == view.ops[id];
    PassedAt(view, graph, done, i);
  }

  /** The record a snapshot stops at is unusable or brings the content over a limit. */
  lemma StopIsCause(view: D.View, graph: nat, done: seq<Op>, op: Op)
    requires D.ValidView(view) && LeadingPart(D.Before, Everything(view), done) && AllPass(done, graph)
    requires ComesNext(view, done, op) && (IsDelete(op, graph) || Blocks(done, op, graph))
    ensures op.id in view.ops && view.ops[op.id] == op
    ensures Usable(op, graph) ==> !AllFit(view, graph)
  {
    PassesIff(view, done, op, graph);
    assert LeadingPart(D.Before, Everything(view) - Elements(done), [op]);
    LeadingPartsJoin(D.Before, Everything(view), done, [op]);
  }

  lemma SucceedsIff(view: D.View, graph: nat, done: seq<Op>, r: Snapshot)
    requires D.ValidView(view) && EndsAfter(view, graph, done, r)
    ensures r.LiveRows? <==> (forall id :: id in view.ops ==> Usable(view.ops[id], graph)) && AllFit(view, graph)
  {
    if r.LiveRows? {
      forall id | id in view.ops ensures Usable(view.ops[id], graph) {
        WholeUsable(view, graph, done, id);
      }
      WholeFits(view, graph, done);
    } else {
      var op :| ComesNext(view, done, op) && (IsDelete(op, graph) || Blocks(done, op, graph));
      StopIsCause(view, graph, done, op);
    }
  }

  /**
   A snapshot succeeds exactly when every record of the topic is a control record,
   a policy of the graph or a well-formed mutation of it, none is larger than a
   page, and every content on the way, in delivery order, is within the limits.
   */
  lemma SnapshotSucceedsIff(view: D.View, graph: nat, done: seq<Op>, r: Snapshot)
    requires D.ValidView(view) && EndsAfter(view, graph, done, r)
    ensures r.LiveRows? <==>
              && AllFit(view, graph)
              && forall id :: id in view.ops ==>
                                var op := view.ops[id];
                                && op.size <= D.PAGE_BYTES
                                && (op.payload.Control?
                                    || (op.payload.GraphEvent? && op.payload.graph == graph
                                        && (op.payload.body.Policy? || (op.payload.body.Mutation? && op.payload.wellFormed))))
  {
    SucceedsIff(view, graph, done, r);
  }

  /**
   Where it stops instead, all before got past: at a deletion of the graph, or it
   fails at an undecodable record, one of another graph, a malformed mutation, one
   larger than a page, or one that brings the content over a limit.
   */
  lemma SnapshotStopsAt(view: D.View, graph: nat, done: seq<Op>, r: Snapshot)
    requires D.ValidView(view) && EndsAfter(view, graph, done, r) && !r.LiveRows?
    ensures exists op ::
              && ComesNext(view, done, op)
              && match r
                 case Tombstoned =>
                   op.payload.GraphEvent? && op.payload.graph == graph && op.payload.body.GraphDeleted? && op.size <= D.PAGE_BYTES
                 case Failed =>
                   || op.size > D.PAGE_BYTES || op.payload.Undecodable?
                   || (op.payload.GraphEvent? && op.payload.graph != graph)
                   || (op.payload.GraphEvent? && op.payload.body.Mutation? && !op.payload.wellFormed)
                   || !FitsAfter(view.ops, done, op, graph)
  {
    var op :| ComesNext(view, done, op) && if r.Tombstoned? then IsDelete(op, graph) else Blocks(done, op, graph);
    PassesIff(view, done, op, graph);
  }

  /** A snapshot's rows hold exactly what the topic's records show. */
  lemma SnapshotShows(ops: Ops, graph: nat, rows: seq<Row>, clock: Clock, q: Quad, d: Dot)
    requires WellFormed(ops) && IsSnapshot(ops, graph, rows, clock)
    ensures (exists i :: 0 <= i < |rows| && rows[i].quad == q && d in rows[i].dots) <==> Shows(ops, ops.Keys, graph, {}, q, d)
  {
    MeaningShows(ops, ops.Keys, graph, {}, q, d);
    if i :| 0 <= i < |rows| && rows[i].quad == q && d in rows[i].dots {
      assert Live(q, d) in RowsContent(rows);
    }
  }
}

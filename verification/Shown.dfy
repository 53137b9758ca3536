/**
 What replayed content shows, told by the records themselves: an inserted quad is
 there, under its record's position, until a record that observed it deletes it.
 */
module Shown {
  import opened Wrappers
  import opened Clocks
  import opened OrSet
  import opened Topics

  /** What a record changes in a graph: nothing, unless it is a well-formed mutation of it outside the ledger. */
  function ChangesTo(op: Op, graph: nat, skip: set<OpId>): seq<Change> {
    match op.payload
    case GraphEvent(g, true, Mutation(_, changes, _)) => if g == graph && op.id !in skip then changes else []
    case _ => []
  }

  function HintsTo(op: Op, graph: nat, skip: set<OpId>): Option<Hints> {
    match op.payload
    case GraphEvent(g, true, Mutation(_, _, hints)) => if g == graph && op.id !in skip then hints else None
    case _ => None
  }

  /** An insert of the quad is listed; where the observed clock covers the record itself, a later delete takes it back. */
  predicate Puts(op: Op, cs: seq<Change>, q: Quad) {
    exists i :: 0 <= i < |cs| && cs[i] == Insert(q)
                && (Contains(op.observed, Dot(op.actor, op.seq_)) ==> Delete(q) !in cs[i + 1..])
  }

  /** A delete of the quad is listed by a record that observed the dot. */
  predicate Withdraws(op: Op, cs: seq<Change>, q: Quad, d: Dot) {
    Delete(q) in cs && Contains(op.observed, d)
  }

  predicate ShownBy(ops: Ops, ids: set<OpId>, graph: nat, skip: set<OpId>, id: OpId, q: Quad, d: Dot) {
    && id in ids && id in ops && d == Dot(ops[id].actor, ops[id].seq_) && Puts(ops[id], ChangesTo(ops[id], graph, skip), q)
    && forall k :: k in ids && k in ops && k != id ==> !Withdraws(ops[k], ChangesTo(ops[k], graph, skip), q, d)
  }

  /** The records show the quad under the dot. */
  ghost predicate Shows(ops: Ops, ids: set<OpId>, graph: nat, skip: set<OpId>, q: Quad, d: Dot) {
    exists id :: ShownBy(ops, ids, graph, skip, id, q, d)
  }

  /** The hints with the largest tag, if any record has hints. */
  ghost predicate HintsShown(ops: Ops, ids: set<OpId>, graph: nat, skip: set<OpId>, h: Option<Hints>) {
    && (h.None? ==> forall id :: id in ids && id in ops ==> HintsTo(ops[id], graph, skip).None?)
    && (h.Some? ==>
          && (exists id :: id in ids && id in ops && HintsTo(ops[id], graph, skip) == h)
          && forall id :: id in ids && id in ops && HintsTo(ops[id], graph, skip).Some? ==>
                            HintsTo(ops[id], graph, skip).value.tag <= h.value.tag)
  }

  lemma {:induction false} PutsIsAdds(op: Op, e: Event, cs: seq<Change>, q: Quad)
    requires e.dot == Dot(op.actor, op.seq_) && e.base == op.observed
    ensures OwnAdds(e, cs, q) <==> Puts(op, cs, q)
  {
    if cs != [] {
      var n := |cs| - 1;
      var front, last := cs[..n], cs[n];
      PutsIsAdds(op, e, front, q);
      assert cs[n + 1..] == [];
      if Puts(op, front, q) && !(last == Delete(q) && Contains(e.base, e.dot)) {
        var i :| 0 <= i < n && front[i] == Insert(q) && (Contains(op.observed, e.dot) ==> Delete(q) !in front[i + 1..]);
        assert cs[i] == Insert(q) && cs[i + 1..] == front[i + 1..] + [last];
      }
      if Puts(op, cs, q) && last != Insert(q) {
        var i :| 0 <= i < |cs| && cs[i] == Insert(q) && (Contains(op.observed, e.dot) ==> Delete(q) !in cs[i + 1..]);
        assert front[i] == Insert(q) && cs[i + 1..] == front[i + 1..] + [last];
      }
    }
  }

  /** A record's event, spelled out. */
  lemma EventIs(op: Op, graph: nat, skip: set<OpId>)
    ensures Replayed(op, graph, skip) <==>
              exists id, changes, hints :: op.payload == GraphEvent(graph, true, Mutation(id, changes, hints)) && op.id !in skip
    ensures Replayed(op, graph, skip) ==>
              && EventOf(op).changes == ChangesTo(op, graph, skip) && EventOf(op).hints == HintsTo(op, graph, skip)
              && EventOf(op).dot == Dot(op.actor, op.seq_) && EventOf(op).base == op.observed
    ensures !Replayed(op, graph, skip) ==> ChangesTo(op, graph, skip) == [] && HintsTo(op, graph, skip) == None
  {
    if Replayed(op, graph, skip) {
      var body := op.payload.body;
      assert op.payload == GraphEvent(graph, true, Mutation(body.id, body.changes, body.hints));
    }
  }

  lemma EventShows(ops: Ops, graph: nat, skip: set<OpId>, id: OpId, q: Quad, d: Dot)
    requires id in ops && Replayed(ops[id], graph, skip)
    ensures Adds(EventOf(ops[id]), q) <==> Puts(ops[id], ChangesTo(ops[id], graph, skip), q)
    ensures Kills(EventOf(ops[id]), q, d) <==> Withdraws(ops[id], ChangesTo(ops[id], graph, skip), q, d)
  {
    EventIs(ops[id], graph, skip);
    PutsIsAdds(ops[id], EventOf(ops[id]), EventOf(ops[id]).changes, q);
  }

  lemma LiveIsShown(ops: Ops, ids: set<OpId>, graph: nat, skip: set<OpId>, q: Quad, d: Dot)
    requires WellFormed(ops) && IsLive(EventSet(ops, ids, graph, skip), Live(q, d))
    ensures Shows(ops, ids, graph, skip, q, d)
  {
    var es := EventSet(ops, ids, graph, skip);
    var e :| LiveVia(es, e, Live(q, d));
    var id :| id in ids && id in ops && Replayed(ops[id], graph, skip) && EventOf(ops[id]) == e;
    EventIs(ops[id], graph, skip);
    EventShows(ops, graph, skip, id, q, d);
    forall k | k in ids && k in ops && k != id ensures !Withdraws(ops[k], ChangesTo(ops[k], graph, skip), q, d) {
      EventIs(ops[k], graph, skip);
      if Replayed(ops[k], graph, skip) {
        EventShows(ops, graph, skip, k, q, d);
        assert DotOf(ops[k]) != DotOf(ops[id]);
        assert EventOf(ops[k]) in es;
      }
    }
    assert ShownBy(ops, ids, graph, skip, id, q, d);
  }

  lemma ShownIsLive(ops: Ops, ids: set<OpId>, graph: nat, skip: set<OpId>, q: Quad, d: Dot)
    requires WellFormed(ops) && Shows(ops, ids, graph, skip, q, d)
    ensures IsLive(EventSet(ops, ids, graph, skip), Live(q, d))
  {
    var es := EventSet(ops, ids, graph, skip);
    var id :| ShownBy(ops, ids, graph, skip, id, q, d);
    EventIs(ops[id], graph, skip);
    EventShows(ops, graph, skip, id, q, d);
    var e := EventOf(ops[id]);
    forall f | f in es && f != e ensures !Kills(f, q, d) {
      var k :| k in ids && k in ops && Replayed(ops[k], graph, skip) && EventOf(ops[k]) == f;
      EventShows(ops, graph, skip, k, q, d);
    }
    assert LiveVia(es, e, Live(q, d));
  }

  /** The order-free meaning of records is what they show. */
  lemma MeaningShows(ops: Ops, ids: set<OpId>, graph: nat, skip: set<OpId>, q: Quad, d: Dot)
    requires WellFormed(ops)
    ensures Live(q, d) in Meaning(EventSet(ops, ids, graph, skip)) <==> Shows(ops, ids, graph, skip, q, d)
  {
    MeaningMember(EventSet(ops, ids, graph, skip), Live(q, d));
    if Shows(ops, ids, graph, skip, q, d) {
      ShownIsLive(ops, ids, graph, skip, q, d);
    }
    if IsLive(EventSet(ops, ids, graph, skip), Live(q, d)) {
      LiveIsShown(ops, ids, graph, skip, q, d);
    }
  }

  lemma WinnerIsShown(ops: Ops, ids: set<OpId>, graph: nat, skip: set<OpId>, h: Option<Hints>)
    requires Winner(EventSet(ops, ids, graph, skip), h)
    ensures HintsShown(ops, ids, graph, skip, h)
  {
    var es := EventSet(ops, ids, graph, skip);
    forall id | id in ids && id in ops && HintsTo(ops[id], graph, skip).Some?
      ensures h.Some? && HintsTo(ops[id], graph, skip).value.tag <= h.value.tag
    {
      EventIs(ops[id], graph, skip);
      assert EventOf(ops[id]) in es;
    }
    if h.Some? {
      var e :| e in es && e.hints == h;
      var id :| id in ids && id in ops && Replayed(ops[id], graph, skip) && EventOf(ops[id]) == e;
      EventIs(ops[id], graph, skip);
    }
  }
}

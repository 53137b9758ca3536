/** `restore_history`: writing the content of an earlier state as one new operation. */
module Restores {
  import opened Wrappers
  import opened Clocks
  import opened OrSet
  import opened Topics
  import opened Replays
  import opened Reconcile
  import opened Order
  import D = Delivery

  // ----- content_changes -----

  /** Deletes what only `from` shows and inserts what only `to` shows. */
  ghost predicate IsDiff(changes: seq<Change>, from: set<Quad>, to: set<Quad>) {
    && (forall q :: Delete(q) in changes <==> q in from && q !in to)
    && (forall q :: Insert(q) in changes <==> q in to && q !in from)
  }

  method ContentChanges(from: Quads, to: Quads) returns (changes: seq<Change>)
    ensures IsDiff(changes, from.Keys, to.Keys)
    ensures forall i, j :: 0 <= i < j < |changes| && changes[i].Insert? ==> changes[j].Insert?
  {
    changes := [];
    var todo := from.Keys;
    while todo != {}
      invariant todo <= from.Keys
      invariant forall c :: c in changes <==> c.Delete? && c.quad in from.Keys - todo && c.quad !in to
    {
      var q :| q in todo;
      if q !in to {
        changes := changes + [Delete(q)];
      }
      todo := todo - {q};
    }
    ghost var removed := changes;
    todo := to.Keys;
    while todo != {}
      invariant todo <= to.Keys && |removed| <= |changes| && changes[..|removed|] == removed
      invariant forall i :: |removed| <= i < |changes| ==> changes[i].Insert?
      invariant forall c :: c in changes <==> c in removed || (c.Insert? && c.quad in to.Keys - todo && c.quad !in from)
    {
      var q :| q in todo;
      if q !in from {
        changes := changes + [Insert(q)];
      }
      todo := todo - {q};
    }
    assert forall i :: 0 <= i < |removed| ==> changes[i] == removed[i] && changes[i] in removed;
  }

  // ----- What the new operation shows -----

  lemma {:induction false} OwnAddsWithoutDelete(e: Event, cs: seq<Change>, q: Quad)
    requires Delete(q) !in cs
    ensures OwnAdds(e, cs, q) <==> Insert(q) in cs
  {
    if cs != [] {
      OwnAddsWithoutDelete(e, cs[..|cs| - 1], q);
      assert cs == cs[..|cs| - 1] + [cs[|cs| - 1]];
    }
  }

  /** The event observed every dot of the content and brings a new one. */
  ghost predicate Observes(e: Event, s: Content) {
    forall x :: x in s ==> Contains(e.base, x.dot) && x.dot != e.dot
  }

  lemma KeyAfter(s: Content, e: Event, from: set<Quad>, to: set<Quad>, q: Quad)
    requires Observes(e, s) && IsDiff(e.changes, from, to)
    ensures q in Keys(ApplyEvent(s, e)) <==> (q in to && q !in from) || (q in Keys(s) && !(q in from && q !in to))
  {
    var after, own := ApplyEvent(s, e), Live(q, e.dot);
    ChangesOnOwnDot(s, e, e.changes, own);
    if Delete(q) !in e.changes {
      OwnAddsWithoutDelete(e, e.changes, q);
    } else if OwnAdds(e, e.changes, q) {
      OwnAddsIsListed(e, e.changes, q);
    }
    forall x: Live | x.quad == q && x.dot != e.dot ensures x in after <==> x in s && !(Delete(q) in e.changes) {
      ChangesOnOtherDot(s, e, e.changes, x);
    }
    if q in Keys(after) {
      var x :| x in after && x.quad == q;
      assert x.dot == e.dot ==> x == own;
    }
    if own in after {
      assert own.quad in Keys(after);
    }
  }

  /**
   Exactly when an event that diffs what is shown, `from`, against a target leaves
   the target: what `from` and the target share is in the event's causal past, and
   what else is in that past is in `from`.
   */
  lemma RestoreIff(s: Content, e: Event, from: set<Quad>, to: set<Quad>)
    requires Observes(e, s) && IsDiff(e.changes, from, to)
    ensures Keys(ApplyEvent(s, e)) == to <==> from * to <= Keys(s) && Keys(s) - to <= from
  {
    forall q
      ensures q in Keys(ApplyEvent(s, e)) <==> (q in to && q !in from) || (q in Keys(s) && !(q in from && q !in to))
    {
      KeyAfter(s, e, from, to, q);
    }
  }

  /** One more event that observed all the others is applied last, however the others were ordered. */
  lemma MeaningLonger(es: set<Event>, e: Event)
    requires forall f :: f in es ==> f.dot != e.dot && !Contains(f.base, e.dot)
    ensures Meaning(es + {e}) == ApplyEvent(Meaning(es), e)
  {
    forall x: Live ensures x in Meaning(es + {e}) <==> x in ApplyEvent(Meaning(es), e) {
      MeaningMember(es, x);
      MeaningMember(es + {e}, x);
      if x.dot == e.dot {
        ChangesOnOwnDot(Meaning(es), e, e.changes, x);
        assert LiveVia(es + {e}, e, x) <==> Adds(e, x.quad);
      } else {
        ChangesOnOtherDot(Meaning(es), e, e.changes, x);
        LiveWithOneMore(es, e, x);
      }
    }
  }

  lemma LiveWithOneMore(es: set<Event>, e: Event, x: Live)
    requires x.dot != e.dot && forall f :: f in es ==> f.dot != e.dot
    ensures IsLive(es + {e}, x) <==> IsLive(es, x) && !Kills(e, x.quad, x.dot)
  {
    if f :| LiveVia(es, f, x) && !Kills(e, x.quad, x.dot) {
      assert LiveVia(es + {e}, f, x);
    }
    if f :| LiveVia(es + {e}, f, x) {
      assert LiveVia(es, f, x) && !Kills(e, x.quad, f.dot);
    }
  }

  // ----- Restoring in a topic -----

  /** `ensure_applied`: the cursor, if it is on the branch, has consumed every head. */
  method EnsureApplied(view: D.View, cursor: Option<D.Cursor>, heads: set<OpId>) returns (ok: bool)
    requires Acyclic(view.ops)
    ensures ok <==> (cursor.Some? ==> D.OnBranch(view, cursor.value)) && heads <= Covered(view.ops, D.CursorClock(cursor))
  {
    if cursor.Some? && !D.OnBranch(view, cursor.value) {
      return false;
    }
    var clock, todo := D.CursorClock(cursor), heads;
    while todo != {}
      invariant todo <= heads && heads - todo <= Covered(view.ops, clock)
    {
      var head :| head in todo;
      if head !in view.ops || Get(clock, view.ops[head].actor) < view.ops[head].seq_ {
        return false;
      }
      todo := todo - {head};
    }
    return true;
  }

  /** `HistoryRestored::extends`: the parents are the heads and the writer's previous operation. */
  predicate Extends(op: Op, heads: set<OpId>, previous: Option<OpId>) {
    op.deps == heads + (if previous.Some? then {previous.value} else {})
  }

  /** Whatever the previous operation adds to the heads' past, it is no change of the graph. */
  ghost predicate AddsNothing(ops: Ops, graph: nat, heads: set<OpId>, previous: Option<OpId>)
    requires Acyclic(ops) && heads <= ops.Keys && (previous.Some? ==> previous.value in ops)
  {
    previous.Some? ==> forall x :: x in ops && Below(ops, x, previous.value) && x !in PastOf(ops, heads) ==>
                                     !Replayed(ops[x], graph, {})
  }

  lemma PastOfNew(ops: Ops, graph: nat, heads: set<OpId>, previous: Option<OpId>, id: OpId, skip: set<OpId>)
    requires WellFormed(ops) && heads <= ops.Keys && (previous.Some? ==> previous.value in ops)
    requires id in ops && Extends(ops[id], heads, previous) && AddsNothing(ops, graph, heads, previous)
    requires Replayed(ops[id], graph, skip)
    ensures EventSet(ops, PastOf(ops, {id}), graph, skip)
         == EventSet(ops, PastOf(ops, heads), graph, skip) + {EventOf(ops[id])}
  {
    forall x | x in ops ensures x in PastOf(ops, {id}) <==>
                          x == id || x in PastOf(ops, heads) || (previous.Some? && Below(ops, x, previous.value)) {
      if x in PastOf(ops, heads) {
        var h :| h in heads && Below(ops, x, h);
        assert h in ops[id].deps;
      }
    }
  }

  /** The new event comes after everything in the heads' past, and observed it all. */
  lemma NewIsLast(ops: Ops, graph: nat, heads: set<OpId>, previous: Option<OpId>, id: OpId, skip: set<OpId>)
    requires WellFormed(ops) && heads <= ops.Keys && id in ops && Extends(ops[id], heads, previous)
    requires Replayed(ops[id], graph, skip)
    ensures forall f :: f in EventSet(ops, PastOf(ops, heads), graph, skip) ==>
                          && f.dot != DotOf(ops[id]) && !Contains(f.base, DotOf(ops[id]))
                          && Contains(ops[id].observed, f.dot)
  {
    forall x | x in PastOf(ops, heads)
      ensures x != id && DotOf(ops[x]) != DotOf(ops[id]) && Contains(ops[id].observed, DotOf(ops[x]))
      ensures !Contains(ops[x].observed, DotOf(ops[id]))
    {
      var h :| h in heads && Below(ops, x, h);
      assert h in ops[id].deps && Below(ops, x, id);
      BelowIsOlder(ops, x, h);
      assert ops[h].generation < ops[id].generation;
      if Below(ops, id, x) {
        BelowIsOlder(ops, id, x);
      }
    }
  }

  lemma MeaningDots(es: set<Event>, x: Live)
    requires x in Meaning(es)
    ensures exists f :: f in es && f.dot == x.dot
  {
    MeaningMember(es, x);
    var f :| LiveVia(es, f, x);
  }

  /** The history at the new operation is the content at the heads with the new event applied. */
  lemma HistoryAtNew(ops: Ops, graph: nat, heads: set<OpId>, previous: Option<OpId>, id: OpId, skip: set<OpId>)
    requires WellFormed(ops) && heads <= ops.Keys && (previous.Some? ==> previous.value in ops)
    requires id in ops && Extends(ops[id], heads, previous) && AddsNothing(ops, graph, heads, previous)
    requires Replayed(ops[id], graph, skip)
    ensures
      var past := Meaning(EventSet(ops, PastOf(ops, heads), graph, skip));
      && Meaning(EventSet(ops, PastOf(ops, {id}), graph, skip)) == ApplyEvent(past, EventOf(ops[id]))
      && Observes(EventOf(ops[id]), past)
  {
    var es := EventSet(ops, PastOf(ops, heads), graph, skip);
    NewIsLast(ops, graph, heads, previous, id, skip);
    PastOfNew(ops, graph, heads, previous, id, skip);
    MeaningLonger(es, EventOf(ops[id]));
    forall x | x in Meaning(es) ensures Contains(ops[id].observed, x.dot) && x.dot != DotOf(ops[id]) {
      MeaningDots(es, x);
    }
  }

  /**
   Exactly when a restore shows its target, whatever the store had applied and in
   whatever order: what the store and the target both show is in the content at
   the heads, and what else that content shows, the store shows too.
   */
  lemma RestoreInTopicIff(p: Place, st: Store, heads: set<OpId>, previous: Option<OpId>, id: OpId, to: set<Quad>)
    requires WellFormed(p.ops) && heads <= p.ops.Keys && (previous.Some? ==> previous.value in p.ops)
    requires id in p.ops && id !in st.ledger && IsMutation(p.ops[id], p.graph)
    requires Extends(p.ops[id], heads, previous) && AddsNothing(p.ops, p.graph, heads, previous)
    requires IsDiff(EventOf(p.ops[id]).changes, Keys(st.content), to)
    ensures
      var past := Keys(Meaning(EventSet(p.ops, PastOf(p.ops, heads), p.graph, st.ledger)));
      Keys(Meaning(EventSet(p.ops, PastOf(p.ops, {id}), p.graph, st.ledger))) == to
      <==> Keys(st.content) * to <= past && past - to <= Keys(st.content)
  {
    HistoryAtNew(p.ops, p.graph, heads, previous, id, st.ledger);
    RestoreIff(Meaning(EventSet(p.ops, PastOf(p.ops, heads), p.graph, st.ledger)), EventOf(p.ops[id]), Keys(st.content), to);
  }

  /** A store whose cursor has consumed the heads and that applied nothing else shows the content at the heads. */
  lemma StoreShowsPast(p: Place, st: Store, heads: set<OpId>)
    requires WellFormed(p.ops) && Good(p, st) && Ordered(p, st) && !st.tombstoned
    requires heads <= Covered(p.ops, D.CursorClock(st.cursor)) && IdSet(st.applied) <= PastOf(p.ops, heads)
    ensures st.content == Meaning(EventSet(p.ops, PastOf(p.ops, heads), p.graph, st.ledger))
  {
    NothingCovered(p.ops);
    forall id | id in PastOf(p.ops, heads) && IsMutation(p.ops[id], p.graph) ensures id in st.applied {
      var h :| h in heads && Below(p.ops, id, h);
      ClosedHoldsPast(p.ops, Covered(p.ops, D.CursorClock(st.cursor)), id, h);
      HandledMutationApplied(p, st, id);
    }
    OrderedIsMeaning(p, st);
    assert EventSet(p.ops, IdSet(st.applied), p.graph, {}) == EventSet(p.ops, PastOf(p.ops, heads), p.graph, st.ledger);
  }

  /**
   A restore whose operation extends the heads the store has applied shows the
   target: in the history at that operation, and in the store once it is applied,
   so restoring the same target again finds nothing to change.
   */
  lemma RestoreIsCorrect(p: Place, st: Store, heads: set<OpId>, previous: Option<OpId>, id: OpId, to: set<Quad>)
    requires WellFormed(p.ops) && Good(p, st) && Ordered(p, st) && !st.tombstoned
    requires heads <= Covered(p.ops, D.CursorClock(st.cursor)) && IdSet(st.applied) <= PastOf(p.ops, heads)
    requires previous.Some? ==> previous.value in p.ops
    requires id in p.ops && id !in st.ledger && IsMutation(p.ops[id], p.graph)
    requires Extends(p.ops[id], heads, previous) && AddsNothing(p.ops, p.graph, heads, previous)
    requires IsDiff(EventOf(p.ops[id]).changes, Keys(st.content), to)
    ensures Keys(Meaning(EventSet(p.ops, PastOf(p.ops, {id}), p.graph, st.ledger))) == to
    ensures Keys(Take(st, p.ops[id], p.graph).content) == to
    ensures forall again :: IsDiff(again, Keys(Take(st, p.ops[id], p.graph).content), to) ==> again == []
  {
    StoreShowsPast(p, st, heads);
    RestoreInTopicIff(p, st, heads, previous, id, to);
    HistoryAtNew(p.ops, p.graph, heads, previous, id, st.ledger);
    NotYetApplied(p, st, heads, previous, id);
    forall again | IsDiff(again, to, to) ensures again == [] {
      EmptyDiff(again, to);
    }
  }

  lemma EmptyDiff(changes: seq<Change>, shown: set<Quad>)
    requires IsDiff(changes, shown, shown)
    ensures changes == []
  {
    assert changes != [] ==> changes[0] in changes;
    forall c: Change ensures c !in changes {
      match c {
        case Insert(q) =>
        case Delete(q) =>
      }
    }
  }

  lemma NotYetApplied(p: Place, st: Store, heads: set<OpId>, previous: Option<OpId>, id: OpId)
    requires WellFormed(p.ops) && Good(p, st) && !st.tombstoned && heads <= p.ops.Keys
    requires IdSet(st.applied) <= PastOf(p.ops, heads) && id in p.ops && IsMutation(p.ops[id], p.graph)
    requires Extends(p.ops[id], heads, previous)
    ensures Take(st, p.ops[id], p.graph).content == ApplyEvent(st.content, EventOf(p.ops[id]))
  {
    assert id in PastOf(p.ops, heads) ==> EventOf(p.ops[id]) in EventSet(p.ops, PastOf(p.ops, heads), p.graph, {});
    NewIsLast(p.ops, p.graph, heads, previous, id, {});
  }
}

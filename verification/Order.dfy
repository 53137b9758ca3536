/**
 When the content of a replica depends only on which records it applied. Pages
 arrive in causal order; a local write goes in at once, even ahead of visible
 records that are not applied yet.
 */
module Order {
  import opened Wrappers
  import opened Clocks
  import opened OrSet
  import opened Topics
  import opened Listings
  import opened Reconcile
  import opened Shown
  import D = Delivery

  /** Every mutation the operation observed is applied. */
  ghost predicate CaughtUp(p: Place, st: Store, op: Op) {
    forall x :: x in p.ops && IsMutation(p.ops[x], p.graph) && x != op.id && Contains(op.observed, DotOf(p.ops[x]))
      ==> x in st.applied
  }

  /** Except for the one at `ahead`, no applied record was applied before a mutation it observed. */
  ghost predicate OrderedBut(p: Place, st: Store, ahead: int) {
    && Listed(p, st.applied)
    && (forall i, j :: 0 <= i < j < |st.applied| && i != ahead ==>
                         !Contains(p.ops[st.applied[i]].observed, DotOf(p.ops[st.applied[j]])))
    && (!st.tombstoned ==> forall i :: 0 <= i < |st.applied| && i != ahead ==> CaughtUp(p, st, p.ops[st.applied[i]]))
  }

  ghost predicate Ordered(p: Place, st: Store) {
    OrderedBut(p, st, -1)
  }

  ghost predicate AllOrdered(p: Place, w: World) {
    forall k :: 0 <= k < |w.trail| ==> Ordered(p, w.trail[k])
  }

  /** Local writes wait until the records they observed are applied, as `ensure_applied` makes a restore wait. */
  ghost predicate Careful(p: Place, w: World, step: Step)
    requires w.trail != []
  {
    step.LocalWrite? && step.id in p.ops && IsMutation(p.ops[step.id], p.graph) ==> CaughtUp(p, Last(w), p.ops[step.id])
  }

  ghost predicate CarefulRun(p: Place, from: World, steps: seq<Step>, to: World)
    requires Acyclic(p.ops)
    decreases |steps|
  {
    if steps == [] then from == to
    else
      && from.trail != [] && Enabled(p, from, steps[0]) && Careful(p, from, steps[0])
      && CarefulRun(p, Next(p, from, steps[0]), steps[1..], to)
  }

  /** A record goes in behind all that could have observed it; only one that is ahead itself need not be caught up. */
  lemma AppliedOrdered(p: Place, st: Store, new_: Store, id: OpId, ahead: int)
    requires Acyclic(p.ops) && OrderedBut(p, st, ahead) && !st.tombstoned && id in p.ops && IsMutation(p.ops[id], p.graph)
    requires new_.applied == st.applied + [id] && id !in st.applied
    requires ahead < |st.applied| && CaughtUp(p, st, p.ops[id])
    ensures OrderedBut(p, new_, ahead)
  {
    NotObserved(p, st, id, ahead);
    forall i | 0 <= i < |new_.applied| && i != ahead ensures CaughtUp(p, new_, p.ops[new_.applied[i]]) {
      assert CaughtUp(p, st, p.ops[new_.applied[i]]);
    }
  }

  lemma NotObserved(p: Place, st: Store, id: OpId, ahead: int)
    requires Acyclic(p.ops) && OrderedBut(p, st, ahead) && !st.tombstoned && id in p.ops && IsMutation(p.ops[id], p.graph)
    requires id !in st.applied
    ensures forall i :: 0 <= i < |st.applied| && i != ahead ==> !Contains(p.ops[st.applied[i]].observed, DotOf(p.ops[id]))
  {
    forall i | 0 <= i < |st.applied| && i != ahead ensures !Contains(p.ops[st.applied[i]].observed, DotOf(p.ops[id])) {
      assert CaughtUp(p, st, p.ops[st.applied[i]]);
    }
  }

  /** A write that is not caught up is the one that is ahead. */
  lemma AheadOrdered(p: Place, st: Store, new_: Store, id: OpId)
    requires Acyclic(p.ops) && Ordered(p, st) && !st.tombstoned && id in p.ops && IsMutation(p.ops[id], p.graph)
    requires new_.applied == st.applied + [id] && id !in st.applied
    ensures OrderedBut(p, new_, |st.applied|)
  {
    NotObserved(p, st, id, -1);
    forall i | 0 <= i < |st.applied| ensures CaughtUp(p, new_, p.ops[new_.applied[i]]) {
      assert CaughtUp(p, st, p.ops[st.applied[i]]);
    }
  }

  lemma TakeOrdered(p: Place, st: Store, id: OpId, ahead: int)
    requires WellFormed(p.ops) && Good(p, st) && OrderedBut(p, st, ahead) && ahead < |st.applied|
    requires id in p.ops && !Rejects(st, p.ops[id], p.graph)
    requires IsMutation(p.ops[id], p.graph) && !st.tombstoned ==> CaughtUp(p, st, p.ops[id])
    ensures OrderedBut(p, Take(st, p.ops[id], p.graph), ahead)
  {
    var new_ := Take(st, p.ops[id], p.graph);
    if new_.applied != st.applied {
      assert id !in st.applied;
      AppliedOrdered(p, st, new_, id, ahead);
    }
  }

  /** A page never delivers a record ahead of one it observed. */
  lemma DeliveredCaughtUp(p: Place, st: Store, cursor: D.Cursor, id: OpId)
    requires WellFormed(p.ops) && Good(p, st) && !st.tombstoned && Accounted(p, st, cursor)
    requires id in p.ops && p.ops[id].deps <= Covered(p.ops, cursor.clock)
    ensures CaughtUp(p, st, p.ops[id])
  {
    CoversOneMore(p.ops, cursor.clock, id);
    forall x | x in p.ops && IsMutation(p.ops[x], p.graph) && x != id && Contains(p.ops[id].observed, DotOf(p.ops[x]))
      ensures x in st.applied
    {
      assert Below(p.ops, x, id);
      HandledMutationApplied(p, st, x);
    }
  }

  /** The store a step commits is ordered when the live one was. */
  lemma CommitOrdered(p: Place, w: World, step: Step)
    requires WellFormed(p.ops) && Inv(p, w) && Ordered(p, Last(w)) && Enabled(p, w, step) && Careful(p, w, step)
    requires step.Deliver? || step.LocalWrite?
    ensures Ordered(p, Last(Next(p, w, step)))
  {
    var st := Last(w);
    assert Good(p, st);
    if !Rejects(st, p.ops[step.id], p.graph) {
      if step.Deliver? && !st.tombstoned {
        DeliveredCaughtUp(p, st, w.session.value, step.id);
      }
      TakeOrdered(p, st, step.id, -1);
    }
  }

  lemma AppendOrdered(p: Place, trail: seq<Store>, st: Store)
    requires (forall k :: 0 <= k < |trail| ==> Ordered(p, trail[k])) && Ordered(p, st)
    ensures forall k :: 0 <= k < |trail + [st]| ==> Ordered(p, (trail + [st])[k])
  {}

  /** Moving a cursor, persisting and crashing leave every store as ordered as it was. */
  lemma QuietOrdered(p: Place, w: World, step: Step)
    requires Acyclic(p.ops) && w.trail != [] && AllOrdered(p, w) && Enabled(p, w, step)
    requires !step.Deliver? && !step.LocalWrite?
    ensures AllOrdered(p, Next(p, w, step))
  {
    assert Ordered(p, Last(w));
    if step.Restart? || step.WriteCursor? {
      AppendOrdered(p, w.trail, Last(Next(p, w, step)));
    }
  }

  lemma StepOrdered(p: Place, w: World, step: Step)
    requires WellFormed(p.ops) && Inv(p, w) && AllOrdered(p, w) && Enabled(p, w, step) && Careful(p, w, step)
    ensures AllOrdered(p, Next(p, w, step))
  {
    if step.Deliver? || step.LocalWrite? {
      assert Ordered(p, Last(w));
      CommitOrdered(p, w, step);
      AppendOrdered(p, w.trail, Last(Next(p, w, step)));
    } else {
      QuietOrdered(p, w, step);
    }
  }

  lemma {:induction false} CarefulRunOrdered(p: Place, from: World, steps: seq<Step>, to: World)
    requires WellFormed(p.ops) && Inv(p, from) && AllOrdered(p, from) && CarefulRun(p, from, steps, to)
    ensures Inv(p, to) && AllOrdered(p, to)
    decreases |steps|
  {
    if steps != [] {
      StepKeeps(p, from, steps[0]);
      StepOrdered(p, from, steps[0]);
      CarefulRunOrdered(p, Next(p, from, steps[0]), steps[1..], to);
    }
  }

  function IdSet(applied: seq<OpId>): set<OpId> {
    set id | id in applied
  }

  lemma RecordIds(ops: Ops, applied: seq<OpId>)
    requires Acyclic(ops) && forall i :: 0 <= i < |applied| ==> applied[i] in ops
    ensures Ids(Records(ops, applied)) == IdSet(applied)
  {
    var records := Records(ops, applied);
    forall id | id in applied ensures id in Ids(records) {
      var i :| 0 <= i < |applied| && applied[i] == id;
      assert records[i].id == id;
    }
  }

  lemma AppliedEvents(ops: Ops, applied: seq<OpId>, graph: nat)
    requires Acyclic(ops) && forall i :: 0 <= i < |applied| ==> applied[i] in ops
    ensures ToSet(EventsOf(Records(ops, applied), graph, {})) == EventSet(ops, IdSet(applied), graph, {})
  {
    RecordIds(ops, applied);
    EventsAreTheSet(ops, Records(ops, applied), graph, {});
  }

  lemma OrderedIsMeaning(p: Place, st: Store)
    requires WellFormed(p.ops) && Good(p, st) && Ordered(p, st) && !st.tombstoned
    ensures st.content == Meaning(EventSet(p.ops, IdSet(st.applied), p.graph, {}))
  {
    var records := Records(p.ops, st.applied);
    assert CausalOps(p.ops, records);
    CausalOpsReplay(p.ops, records, p.graph, {});
    RecordIds(p.ops, st.applied);
  }

  /** In every careful run, every store a crash could leave holds the order-free meaning of the records it applied. */
  lemma CarefulRunsAreOrderFree(p: Place, steps: seq<Step>, w: World)
    requires WellFormed(p.ops) && CarefulRun(p, START, steps, w)
    ensures forall k :: 0 <= k < |w.trail| && !w.trail[k].tombstoned ==>
                          w.trail[k].content == Meaning(EventSet(p.ops, IdSet(w.trail[k].applied), p.graph, {}))
  {
    StartIsGood(p);
    CarefulRunOrdered(p, START, steps, w);
    forall k | 0 <= k < |w.trail| && !w.trail[k].tombstoned
      ensures w.trail[k].content == Meaning(EventSet(p.ops, IdSet(w.trail[k].applied), p.graph, {}))
    {
      OrderedIsMeaning(p, w.trail[k]);
    }
  }

  /** Two replicas of one graph that applied the same records hold the same dots, whatever each went through. */
  lemma ReplicasConverge(left: Place, ls: seq<Step>, lw: World, right: Place, rs: seq<Step>, rw: World)
    requires WellFormed(left.ops) && left.ops == right.ops && left.graph == right.graph
    requires CarefulRun(left, START, ls, lw) && CarefulRun(right, START, rs, rw)
    requires lw.trail != [] && rw.trail != [] && !Last(lw).tombstoned && !Last(rw).tombstoned
    requires IdSet(Last(lw).applied) == IdSet(Last(rw).applied)
    ensures Last(lw).content == Last(rw).content
  {
    CarefulRunsAreOrderFree(left, ls, lw);
    CarefulRunsAreOrderFree(right, rs, rw);
  }

  // ----- In any run whatever -----

  lemma {:induction false} EventsAt(p: Place, applied: seq<OpId>, i: nat)
    requires Listed(p, applied) && i < |applied|
    ensures
      var es := EventsOf(Records(p.ops, applied), p.graph, {});
      |es| == |applied| && es[i] == EventOf(p.ops[applied[i]])
  {
    var n := |applied| - 1;
    var front := applied[..n];
    assert forall k :: 0 <= k < n ==> front[k] == applied[k];
    assert Records(p.ops, applied) == Records(p.ops, front) + [p.ops[applied[n]]];
    EventsOfLonger(Records(p.ops, front), p.ops[applied[n]], p.graph, {});
    if n > 0 {
      EventsAt(p, front, if i < n then i else 0);
    }
  }

  lemma AppliedDots(p: Place, applied: seq<OpId>)
    requires WellFormed(p.ops) && Listed(p, applied)
    ensures DistinctDots(EventsOf(Records(p.ops, applied), p.graph, {}))
  {
    var es := EventsOf(Records(p.ops, applied), p.graph, {});
    if applied == [] {
      assert Records(p.ops, applied) == [];
    } else {
      EventsAt(p, applied, 0);
      forall i, j | 0 <= i < j < |es| ensures es[i].dot != es[j].dot {
        EventsAt(p, applied, i);
        EventsAt(p, applied, j);
        assert applied[i] != applied[j];
        assert DotOf(p.ops[applied[i]]) != DotOf(p.ops[applied[j]]);
      }
    }
  }

  /** A live store holds the meaning of the records it applied exactly when their order resurrects nothing. */
  lemma StoreIsMeaningIff(p: Place, st: Store)
    requires WellFormed(p.ops) && Good(p, st) && !st.tombstoned
    ensures st.content == Meaning(EventSet(p.ops, IdSet(st.applied), p.graph, {}))
       <==> NothingResurrected(EventsOf(Records(p.ops, st.applied), p.graph, {}))
  {
    AppliedDots(p, st.applied);
    AppliedEvents(p.ops, st.applied, p.graph);
    ReplayIsMeaningIff(EventsOf(Records(p.ops, st.applied), p.graph, {}));
  }

  /** In every run, whatever its local writes did, that is so of every store a crash could leave. */
  lemma RunsAreMeaningIff(p: Place, steps: seq<Step>, w: World, k: nat)
    requires WellFormed(p.ops) && Run(p, START, steps, w) && k < |w.trail| && !w.trail[k].tombstoned
    ensures Listed(p, w.trail[k].applied)
    ensures w.trail[k].content == Meaning(EventSet(p.ops, IdSet(w.trail[k].applied), p.graph, {}))
       <==> NothingResurrected(EventsOf(Records(p.ops, w.trail[k].applied), p.graph, {}))
  {
    EveryRunIsSafe(p, steps, w);
    StoreIsMeaningIff(p, w.trail[k]);
  }

  /** The record applied as number `j` put the quad there, and no later one that observed it deletes the quad. */
  ghost predicate PutAt(p: Place, applied: seq<OpId>, j: int, q: Quad, d: Dot)
    requires Listed(p, applied)
  {
    && 0 <= j < |applied| && d == Dot(p.ops[applied[j]].actor, p.ops[applied[j]].seq_)
    && Puts(p.ops[applied[j]], p.ops[applied[j]].payload.body.changes, q)
    && forall l :: j < l < |applied| ==> !Withdraws(p.ops[applied[l]], p.ops[applied[l]].payload.body.changes, q, d)
  }

  lemma KeptIsPutAt(p: Place, applied: seq<OpId>, j: nat, q: Quad, d: Dot)
    requires Listed(p, applied) && j < |applied|
    ensures ReplayKeeps(EventsOf(Records(p.ops, applied), p.graph, {}), j, Live(q, d)) <==> PutAt(p, applied, j, q, d)
  {
    var es := EventsOf(Records(p.ops, applied), p.graph, {});
    forall i | 0 <= i < |applied|
      ensures |es| == |applied| && es[i] == EventOf(p.ops[applied[i]])
      ensures Adds(es[i], q) <==> Puts(p.ops[applied[i]], p.ops[applied[i]].payload.body.changes, q)
      ensures Kills(es[i], q, d) <==> Withdraws(p.ops[applied[i]], p.ops[applied[i]].payload.body.changes, q, d)
    {
      EventsAt(p, applied, i);
      EventIs(p.ops[applied[i]], p.graph, {});
      EventShows(p.ops, p.graph, {}, applied[i], q, d);
    }
  }

  /** In every run, what a live store shows is what the records it applied put there and did not withdraw later on. */
  lemma RunsShow(p: Place, steps: seq<Step>, w: World, k: nat, q: Quad, d: Dot)
    requires WellFormed(p.ops) && Run(p, START, steps, w) && k < |w.trail| && !w.trail[k].tombstoned
    ensures Listed(p, w.trail[k].applied)
    ensures Live(q, d) in w.trail[k].content <==> exists j :: PutAt(p, w.trail[k].applied, j, q, d)
  {
    EveryRunIsSafe(p, steps, w);
    var applied := w.trail[k].applied;
    var es := EventsOf(Records(p.ops, applied), p.graph, {});
    AppliedDots(p, applied);
    ReplayMember(es, Live(q, d));
    if applied == [] {
      assert Records(p.ops, applied) == [];
    } else {
      EventsAt(p, applied, 0);
    }
    forall j | 0 <= j < |applied| ensures ReplayKeeps(es, j, Live(q, d)) <==> PutAt(p, applied, j, q, d) {
      KeptIsPutAt(p, applied, j, q, d);
    }
  }

  /** In runs whose local writes wait, it is what those records show, in no order at all. */
  lemma CarefulRunsShow(p: Place, steps: seq<Step>, w: World, k: nat, q: Quad, d: Dot)
    requires WellFormed(p.ops) && CarefulRun(p, START, steps, w) && k < |w.trail| && !w.trail[k].tombstoned
    ensures Live(q, d) in w.trail[k].content <==> Shows(p.ops, IdSet(w.trail[k].applied), p.graph, {}, q, d)
  {
    CarefulRunsAreOrderFree(p, steps, w);
    MeaningShows(p.ops, IdSet(w.trail[k].applied), p.graph, {}, q, d);
  }

  // ----- Writing ahead -----

  /** A later record kills the quad's dot of the one at `j`. */
  ghost predicate KilledLater(p: Place, applied: seq<OpId>, j: int, q: Quad)
    requires Listed(p, applied) && 0 <= j < |applied|
  {
    exists l :: j < l < |applied| && Kills(EventOf(p.ops[applied[l]]), q, DotOf(p.ops[applied[j]]))
  }

  /** The write at `ahead` deletes a quad that the later record at `j`, which it observed, inserts. */
  ghost predicate Clashes(p: Place, applied: seq<OpId>, ahead: int, j: int, q: Quad)
    requires Listed(p, applied) && 0 <= ahead < |applied| && 0 <= j < |applied|
  {
    && ahead < j && Contains(p.ops[applied[ahead]].observed, DotOf(p.ops[applied[j]]))
    && Delete(q) in EventOf(p.ops[applied[ahead]]).changes && Adds(EventOf(p.ops[applied[j]]), q)
  }

  /** Every quad a write ahead should have deleted is deleted again by a later record. */
  ghost predicate Recovered(p: Place, applied: seq<OpId>, ahead: int)
    requires Listed(p, applied) && 0 <= ahead < |applied|
  {
    forall j, q :: 0 <= j < |applied| && Clashes(p, applied, ahead, j, q) ==> KilledLater(p, applied, j, q)
  }

  /** One record after another is applied behind the write, each caught up when its turn comes. */
  ghost predicate CatchUp(p: Place, st: Store, rs: seq<OpId>)
    requires !st.tombstoned
  {
    rs != [] ==>
      var n := |rs| - 1;
      && CatchUp(p, st, rs[..n]) && rs[n] in p.ops && IsMutation(p.ops[rs[n]], p.graph)
      && rs[n] !in TakeAll(p, st, rs[..n]).applied && CaughtUp(p, TakeAll(p, st, rs[..n]), p.ops[rs[n]])
  }

  /** The store after all of them. */
  ghost function TakeAll(p: Place, st: Store, rs: seq<OpId>): (r: Store)
    requires !st.tombstoned
    ensures !r.tombstoned
  {
    if rs == [] then st
    else
      var before := TakeAll(p, st, rs[..|rs| - 1]);
      var id := rs[|rs| - 1];
      if id in p.ops && IsMutation(p.ops[id], p.graph) then Take(before, p.ops[id], p.graph) else before
  }

  /** A caught-up mutation is in turn. */
  lemma CaughtUpInTurn(p: Place, st: Store, id: OpId)
    requires WellFormed(p.ops) && id in p.ops && CaughtUp(p, st, p.ops[id])
    ensures InTurn(p, st, p.ops[id])
  {
    forall x | x in p.ops && IsMutation(p.ops[x], p.graph) && p.ops[x].actor == p.ops[id].actor && p.ops[x].seq_ < p.ops[id].seq_
      ensures x in st.applied
    {
      ActorChain(p.ops, x, id);
      assert Contains(p.ops[id].observed, DotOf(p.ops[x]));
    }
  }

  lemma CatchUpOne(p: Place, st: Store, id: OpId, ahead: int)
    requires WellFormed(p.ops) && Good(p, st) && !st.tombstoned && OrderedBut(p, st, ahead) && ahead < |st.applied|
    requires id in p.ops && IsMutation(p.ops[id], p.graph) && id !in st.applied && CaughtUp(p, st, p.ops[id])
    ensures
      var end := Take(st, p.ops[id], p.graph);
      Good(p, end) && OrderedBut(p, end, ahead) && end.applied == st.applied + [id]
  {
    CaughtUpInTurn(p, st, id);
    TakeIsGood(p, st, id);
    TakeOrdered(p, st, id, ahead);
  }

  lemma {:induction false} CatchUpKeeps(p: Place, st: Store, rs: seq<OpId>, ahead: int)
    requires WellFormed(p.ops) && Good(p, st) && !st.tombstoned && OrderedBut(p, st, ahead) && ahead < |st.applied|
    requires CatchUp(p, st, rs)
    ensures Good(p, TakeAll(p, st, rs)) && OrderedBut(p, TakeAll(p, st, rs), ahead)
    ensures TakeAll(p, st, rs).applied == st.applied + rs
  {
    if rs != [] {
      var n := |rs| - 1;
      CatchUpKeeps(p, st, rs[..n], ahead);
      CatchUpOne(p, TakeAll(p, st, rs[..n]), rs[n], ahead);
      JoinedLonger(st.applied, rs, n);
      JoinedEnds(st.applied, rs);
    }
  }

  lemma AheadKilledBefore(p: Place, st: Store, ahead: int, j: int, q: Quad)
    requires WellFormed(p.ops) && OrderedBut(p, st, ahead) && 0 <= ahead < |st.applied| && 0 <= j < |st.applied|
    ensures
      var es := EventsOf(Records(p.ops, st.applied), p.graph, {});
      |es| == |st.applied| && es[j] == EventOf(p.ops[st.applied[j]])
      && (Adds(es[j], q) && KilledBefore(es, j, q, es[j].dot) <==> Clashes(p, st.applied, ahead, j, q))
  {
    var es := EventsOf(Records(p.ops, st.applied), p.graph, {});
    EventsAt(p, st.applied, j);
    EventsAt(p, st.applied, ahead);
    forall i | 0 <= i < j && i != ahead ensures !Kills(es[i], q, es[j].dot) {
      EventsAt(p, st.applied, i);
    }
    if Clashes(p, st.applied, ahead, j, q) {
      assert Kills(es[ahead], q, es[j].dot);
    }
  }

  lemma AheadKilledAfter(p: Place, applied: seq<OpId>, j: int, q: Quad)
    requires Listed(p, applied) && 0 <= j < |applied|
    ensures
      var es := EventsOf(Records(p.ops, applied), p.graph, {});
      |es| == |applied| && (KilledAfter(es, j, q, DotOf(p.ops[applied[j]])) <==> KilledLater(p, applied, j, q))
  {
    var es := EventsOf(Records(p.ops, applied), p.graph, {});
    EventsAt(p, applied, j);
    forall l | 0 <= l < |applied| ensures es[l] == EventOf(p.ops[applied[l]]) {
      EventsAt(p, applied, l);
    }
  }

  lemma RecoveredIff(p: Place, st: Store, ahead: int)
    requires WellFormed(p.ops) && OrderedBut(p, st, ahead) && 0 <= ahead < |st.applied|
    ensures NothingResurrected(EventsOf(Records(p.ops, st.applied), p.graph, {})) <==> Recovered(p, st.applied, ahead)
  {
    var es := EventsOf(Records(p.ops, st.applied), p.graph, {});
    EventsAt(p, st.applied, 0);
    forall j, q | 0 <= j < |es|
      ensures Adds(es[j], q) && KilledBefore(es, j, q, es[j].dot) <==> Clashes(p, st.applied, ahead, j, q)
      ensures KilledAfter(es, j, q, es[j].dot) <==> KilledLater(p, st.applied, j, q)
    {
      AheadKilledBefore(p, st, ahead, j, q);
      AheadKilledAfter(p, st.applied, j, q);
    }
    if NothingResurrected(es) {
      forall j, q | 0 <= j < |st.applied| && Clashes(p, st.applied, ahead, j, q) ensures KilledLater(p, st.applied, j, q) {
        OwnAddsIsListed(es[j], es[j].changes, q);
        assert Insert(q) in es[j].changes && Insert(q).quad == q;
      }
    }
  }

  /**
   Exactly when a write that goes in before records it observed leaves the replica
   right, however many records follow: when every quad it deletes and one of them
   inserts is deleted again by a later one. Otherwise a deleted quad comes back
   here and nowhere else.
   */
  lemma WriteAheadIff(p: Place, st: Store, write: OpId, rs: seq<OpId>)
    requires WellFormed(p.ops) && Good(p, st) && Ordered(p, st) && !st.tombstoned
    requires write in p.ops && IsMutation(p.ops[write], p.graph) && write !in st.applied && InTurn(p, st, p.ops[write])
    requires CatchUp(p, Take(st, p.ops[write], p.graph), rs)
    ensures
      var end := TakeAll(p, Take(st, p.ops[write], p.graph), rs);
      && end.applied == st.applied + [write] + rs && Listed(p, end.applied)
      && (end.content == Meaning(EventSet(p.ops, IdSet(end.applied), p.graph, {})) <==> Recovered(p, end.applied, |st.applied|))
  {
    var ahead, written := |st.applied|, Take(st, p.ops[write], p.graph);
    TakeIsGood(p, st, write);
    AheadOrdered(p, st, written, write);
    CatchUpKeeps(p, written, rs, ahead);
    var end := TakeAll(p, written, rs);
    RecoveredIff(p, end, ahead);
    StoreIsMeaningIff(p, end);
  }

  lemma RunStep(p: Place, from: World, step: Step, rest: seq<Step>, to: World)
    requires Acyclic(p.ops) && from.trail != [] && Enabled(p, from, step) && Run(p, Next(p, from, step), rest, to)
    ensures Run(p, from, [step] + rest, to)
  {
    assert ([step] + rest)[1..] == rest;
  }

  /** A first local write over one visible record, deleting a quad that record inserts. */
  ghost predicate FirstWrite(p: Place, write: OpId, record: OpId, q: Quad) {
    && write in p.ops && record in p.ops && IsMutation(p.ops[write], p.graph) && IsMutation(p.ops[record], p.graph)
    && p.ops[record].deps == {} && p.ops[write].deps == {record} && p.ops[write].actor == p.local
    && (forall x :: x in p.ops && p.ops[x].actor == p.local ==> p.ops[write].seq_ <= p.ops[x].seq_)
    && Delete(q) in EventOf(p.ops[write]).changes && Adds(EventOf(p.ops[record]), q)
  }

  lemma FirstWriteCatchesUp(p: Place, write: OpId, record: OpId, q: Quad)
    requires WellFormed(p.ops) && FirstWrite(p, write, record, q)
    ensures CatchUp(p, Take(EMPTY, p.ops[write], p.graph), [record])
  {
    var written := Take(EMPTY, p.ops[write], p.graph);
    assert [record][..0] == [];
    assert TakeAll(p, written, []) == written;
    assert forall x :: x in p.ops && x != record ==> !Below(p.ops, x, record);
  }

  lemma FirstWriteDiverges(p: Place, write: OpId, record: OpId, q: Quad)
    requires WellFormed(p.ops) && FirstWrite(p, write, record, q)
    ensures
      var end := TakeAll(p, Take(EMPTY, p.ops[write], p.graph), [record]);
      end.content != Meaning(EventSet(p.ops, IdSet(end.applied), p.graph, {}))
  {
    StartIsGood(p);
    assert Good(p, START.trail[0]);
    FirstWriteCatchesUp(p, write, record, q);
    WriteAheadIff(p, EMPTY, write, [record]);
    var applied := [] + [write] + [record];
    assert applied[0] == write && applied[1] == record;
    assert Below(p.ops, record, record) && Below(p.ops, record, write);
    assert Clashes(p, applied, 0, 1, q);
  }

  lemma FirstDelivery(p: Place, write: OpId, record: OpId, q: Quad, w: World) returns (end: World)
    requires WellFormed(p.ops) && FirstWrite(p, write, record, q)
    requires w.trail != [] && Last(w) == Take(EMPTY, p.ops[write], p.graph)
    ensures Run(p, w, [Begin(None), Deliver(record)], end)
    ensures end.trail != [] && Last(end) == TakeAll(p, Take(EMPTY, p.ops[write], p.graph), [record])
  {
    NothingCovered(p.ops);
    assert [record][..0] == [];
    var mid := Next(p, w, Begin(None));
    end := Next(p, mid, Deliver(record));
    RunStep(p, mid, Deliver(record), [], end);
    RunStep(p, w, Begin(None), [Deliver(record)], end);
  }

  lemma FirstWriteRuns(p: Place, write: OpId, record: OpId, q: Quad) returns (w: World)
    requires WellFormed(p.ops) && FirstWrite(p, write, record, q)
    ensures Run(p, START, [Change({write, record}, 0), LocalWrite(write), Begin(None), Deliver(record)], w)
    ensures w.trail != [] && Last(w) == TakeAll(p, Take(EMPTY, p.ops[write], p.graph), [record])
  {
    var w1 := Next(p, START, Change({write, record}, 0));
    var w2 := Next(p, w1, LocalWrite(write));
    w := FirstDelivery(p, write, record, q, w2);
    RunStep(p, w1, LocalWrite(write), [Begin(None), Deliver(record)], w);
    RunStep(p, START, Change({write, record}, 0), [LocalWrite(write), Begin(None), Deliver(record)], w);
  }

  /** Such runs exist: a replica sees one record, deletes what it inserts, and only then receives it. */
  lemma WriteAheadRun(p: Place, write: OpId, record: OpId, q: Quad)
    requires WellFormed(p.ops) && FirstWrite(p, write, record, q)
    ensures exists steps, w :: Run(p, START, steps, w) && w.trail != []
                               && Last(w).content != Meaning(EventSet(p.ops, IdSet(Last(w).applied), p.graph, {}))
  {
    FirstWriteDiverges(p, write, record, q);
    var w := FirstWriteRuns(p, write, record, q);
  }
}

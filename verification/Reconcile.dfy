/**
 A replica reconciling one topic into one graph, as a machine over its steps:
 delivery, commits, cursor writes, persists, crashes, restarts and local writes
 in any order. `ops` is every operation the topic's genesis ever holds; what the
 replica can see of it comes and goes with topic resets.
 */
module Reconcile {
  import opened Wrappers
  import opened Clocks
  import opened OrSet
  import opened Topics
  import opened Shown
  import D = Delivery

  /**
   The graph store, with the applied topic cursor and the rejection ledger.
   `applied` lists the mutation records whose changes were committed, in order.
   */
  datatype Store = Store(
    cursor: Option<D.Cursor>,
    content: Content,
    clock: Clock,
    tombstoned: bool,
    policy: nat,
    ledger: set<OpId>,
    applied: seq<OpId>)

  const EMPTY := Store(None, {}, map[], false, 0, {}, [])

  // ----- One record -----

  predicate ForGraph(op: Op, graph: nat) {
    op.payload.GraphEvent? && op.payload.graph == graph
  }

  predicate IsMutation(op: Op, graph: nat) {
    ForGraph(op, graph) && op.payload.body.Mutation? && op.payload.wellFormed
  }

  /** Records no retry could accept. */
  predicate Rejects(st: Store, op: Op, graph: nat) {
    match op.payload
    case Control => false
    case Undecodable => true
    case GraphEvent(g, wellFormed, body) =>
      g != graph || (
        match body
        case GraphDeleted => false
        case Policy(_, authorized) => st.tombstoned || !authorized
        case Mutation(_, _, _) => st.tombstoned || !wellFormed)
  }

  /** `apply_record_locked`: deletion is permanent, policies are last writer wins, mutations apply once by graph clock. */
  function Take(st: Store, op: Op, graph: nat): Store
    requires !Rejects(st, op, graph)
  {
    match op.payload
    case Control => st
    case GraphEvent(_, _, body) =>
      match body
      case GraphDeleted => st.(tombstoned := true, content := {}, clock := map[], policy := 0)
      case Policy(tag, _) => if tag <= st.policy then st else st.(policy := tag)
      case Mutation(_, _, _) =>
        if Contains(st.clock, DotOf(op)) then st
        else st.(content := ApplyEvent(st.content, EventOf(op)),
                 clock := Observe(st.clock, op.actor, op.seq_),
                 applied := st.applied + [op.id])
  }

  /** The ledger entry and the cursor past the record go in one commit. */
  function Refuse(st: Store, op: Op, cursor: D.Cursor): Store {
    st.(ledger := st.ledger + {op.id}, cursor := Some(cursor))
  }

  /** The store once a delivered record is dealt with. */
  function Settle(st: Store, op: Op, cursor: D.Cursor, graph: nat): Store {
    if Rejects(st, op, graph) then Refuse(st, op, cursor) else Take(st, op, graph)
  }

  // ----- Steps -----

  /**
   `trail` holds the commits since the last persist, the durable state first and
   the live state last; a crash keeps any one of them. `session` is the cursor a
   running pass carries in memory.
   */
  datatype World = World(visible: set<OpId>, epoch: nat, trail: seq<Store>, session: Option<D.Cursor>)

  datatype Step =
    | Change(visible: set<OpId>, epoch: nat) // admissions, publications and topic resets
    | Restart // once the own records the cursor consumed are back
    | Begin(target: Option<Clock>)
    | Deliver(id: OpId)
    | WriteCursor
    | End
    | Persist
    | Crash(kept: nat)
    | LocalWrite(id: OpId)

  /** One genesis, one graph and one local actor. */
  datatype Place = Place(ops: Ops, graph: nat, genesis: OpId, local: Actor)

  function Last(w: World): Store
    requires w.trail != []
  {
    w.trail[|w.trail| - 1]
  }

  function Consumed(cursor: D.Cursor, op: Op): D.Cursor {
    cursor.(clock := Observe(cursor.clock, op.actor, op.seq_))
  }

  function OwnReached(st: Store, local: Actor): nat {
    D.Furthest(Get(st.clock, local), st.cursor, local)
  }

  /** `own_pending` names no own record before `seq_`. */
  ghost predicate NonePendingBefore(p: Place, w: World, seq_: nat)
    requires w.trail != []
  {
    forall id :: id in w.visible && id in p.ops && p.ops[id].actor == p.local ==>
                   OwnReached(Last(w), p.local) < p.ops[id].seq_ < seq_ ==> p.ops[id].payload.Control?
  }

  ghost predicate Enabled(p: Place, w: World, step: Step)
    requires Acyclic(p.ops) && w.trail != []
  {
    var st := Last(w);
    match step
    case Change(visible, _) => Closed(p.ops, visible)
    case Restart =>
      && st.cursor.Some? && st.cursor.value.epoch != w.epoch
      && forall id :: id in Covered(p.ops, st.cursor.value.clock) && p.ops[id].actor == p.local ==> id in w.visible
    case Begin(target) =>
      && (st.cursor.Some? ==> st.cursor.value.epoch == w.epoch)
      && (target.Some? ==> Closed(p.ops, Covered(p.ops, target.value)))
    case Deliver(id) =>
      && w.session.Some? && id in p.ops
      && id !in Covered(p.ops, w.session.value.clock) && p.ops[id].deps <= Covered(p.ops, w.session.value.clock)
    case WriteCursor => w.session.Some?
    case End => true
    case Persist => true
    case Crash(kept) => kept < |w.trail|
    case LocalWrite(id) =>
      && id in w.visible && id in p.ops && p.ops[id].actor == p.local
      && ForGraph(p.ops[id], p.graph) && !Rejects(st, p.ops[id], p.graph)
      && (p.ops[id].payload.body.Mutation? ==> NonePendingBefore(p, w, p.ops[id].seq_))
  }

  function Next(p: Place, w: World, step: Step): World
    requires w.trail != []
    requires step.Deliver? || step.LocalWrite? ==> step.id in p.ops
    requires step.Deliver? || step.WriteCursor? ==> w.session.Some?
    requires step.Crash? ==> step.kept < |w.trail|
    requires step.LocalWrite? ==> !Rejects(Last(w), p.ops[step.id], p.graph)
  {
    var st := Last(w);
    match step
    case Change(visible, epoch) => w.(visible := visible, epoch := epoch)
    case Restart => w.(trail := w.trail + [st.(cursor := Some(D.Cursor(w.epoch, p.genesis, map[], None)))])
    case Begin(target) =>
      var clock := if st.cursor.Some? then st.cursor.value.clock else map[];
      w.(session := Some(D.Cursor(w.epoch, p.genesis, clock, target)))
    case Deliver(id) =>
      var cursor := Consumed(w.session.value, p.ops[id]);
      w.(trail := w.trail + [Settle(st, p.ops[id], cursor, p.graph)], session := Some(cursor))
    case WriteCursor => w.(trail := w.trail + [st.(cursor := w.session)])
    case End => w.(session := None)
    case Persist => w.(trail := [st])
    case Crash(kept) => w.(trail := [w.trail[kept]], session := None)
    case LocalWrite(id) => w.(trail := w.trail + [Take(st, p.ops[id], p.graph)])
  }

  ghost predicate Run(p: Place, from: World, steps: seq<Step>, to: World)
    requires Acyclic(p.ops)
    decreases |steps|
  {
    if steps == [] then from == to
    else from.trail != [] && Enabled(p, from, steps[0]) && Run(p, Next(p, from, steps[0]), steps[1..], to)
  }

  const START := World({}, 0, [EMPTY], None)

  // ----- What every store satisfies -----

  /** Applied, a control record, or in the ledger. */
  predicate Handled(st: Store, op: Op, graph: nat) {
    op.id in st.ledger || (
      match op.payload
      case Control => true
      case Undecodable => false
      case GraphEvent(g, wellFormed, body) =>
        g == graph && (
          match body
          case GraphDeleted => st.tombstoned
          case Policy(tag, authorized) => authorized && (st.tombstoned || tag <= st.policy)
          case Mutation(_, _, _) => wellFormed && op.id in st.applied))
  }

  /** A cursor covers a causally closed set of handled records, and heads for a closed one. */
  ghost predicate Accounted(p: Place, st: Store, cursor: D.Cursor)
    requires Acyclic(p.ops)
  {
    && cursor.genesis == p.genesis
    && (cursor.target.Some? ==> Closed(p.ops, Covered(p.ops, cursor.target.value)))
    && Closed(p.ops, Covered(p.ops, cursor.clock))
    && forall id :: id in Covered(p.ops, cursor.clock) ==> Handled(st, p.ops[id], p.graph)
  }

  ghost predicate Listed(p: Place, applied: seq<OpId>) {
    && (forall i :: 0 <= i < |applied| ==> applied[i] in p.ops && IsMutation(p.ops[applied[i]], p.graph))
    && forall i, j :: 0 <= i < j < |applied| ==> applied[i] != applied[j]
  }

  function Records(ops: Ops, applied: seq<OpId>): seq<Op>
    requires forall i :: 0 <= i < |applied| ==> applied[i] in ops
  {
    seq(|applied|, i requires 0 <= i < |applied| => ops[applied[i]])
  }

  /** The changes of the applied records, each once, in the order they were applied. */
  function OnceOnly(p: Place, applied: seq<OpId>): Content
    requires forall i :: 0 <= i < |applied| ==> applied[i] in p.ops
  {
    Replay(EventsOf(Records(p.ops, applied), p.graph, {}))
  }

  /** On a live graph the clock tells which mutations were applied. */
  ghost predicate ClockTells(p: Place, st: Store) {
    forall id :: id in p.ops && IsMutation(p.ops[id], p.graph) ==> (Contains(st.clock, DotOf(p.ops[id])) <==> id in st.applied)
  }

  /** The ledger holds only records that no retry could accept. */
  ghost predicate LedgerTells(p: Place, st: Store) {
    forall id :: id in st.ledger ==> id in p.ops && Rejects(st, p.ops[id], p.graph)
  }

  /** The policy is one that an authorized record set; a deleted graph has none, and no clock. */
  ghost predicate PolicyTells(p: Place, st: Store) {
    if st.tombstoned then st.policy == 0 && st.clock == map[]
    else st.policy > 0 ==> exists id :: id in p.ops && SetsPolicy(p.ops[id], p.graph, st.policy)
  }

  predicate SetsPolicy(op: Op, graph: nat, tag: nat) {
    ForGraph(op, graph) && op.payload.body == Policy(tag, true)
  }

  ghost predicate Good(p: Place, st: Store)
    requires Acyclic(p.ops)
  {
    && Listed(p, st.applied)
    && st.content == (if st.tombstoned then {} else OnceOnly(p, st.applied))
    && (!st.tombstoned ==> ClockTells(p, st))
    && LedgerTells(p, st) && PolicyTells(p, st)
    && (st.cursor.Some? ==> Accounted(p, st, st.cursor.value))
  }

  /** Every store a crash could leave is good, and the running pass has handled all it consumed. */
  ghost predicate Inv(p: Place, w: World)
    requires Acyclic(p.ops)
  {
    && w.trail != [] && Closed(p.ops, w.visible)
    && (forall k :: 0 <= k < |w.trail| ==> Good(p, w.trail[k]))
    && (w.session.Some? ==> Accounted(p, Last(w), w.session.value))
  }

  // ----- Steps keep it -----

  /** Consuming a record whose dependencies are covered covers just that record more. */
  lemma CoversOneMore(ops: Ops, clock: Clock, id: OpId)
    requires WellFormed(ops) && Closed(ops, Covered(ops, clock)) && id in ops && ops[id].deps <= Covered(ops, clock)
    ensures Covered(ops, Observe(clock, ops[id].actor, ops[id].seq_)) == Covered(ops, clock) + {id}
    ensures Closed(ops, Covered(ops, clock) + {id})
    ensures forall x :: x in ops && x != id && Below(ops, x, id) ==> x in Covered(ops, clock)
  {
    var covered := Covered(ops, clock);
    assert Closed(ops, covered + {id});
    forall x | x in ops && x != id && Below(ops, x, id) ensures x in covered {
      var d :| d in ops[id].deps && Below(ops, x, d);
      ClosedHoldsPast(ops, covered, x, d);
    }
    forall x | x in ops && ops[x].actor == ops[id].actor && ops[x].seq_ <= ops[id].seq_ ensures x in covered + {id} {
      if ops[x].seq_ < ops[id].seq_ {
        ActorChain(ops, x, id);
      } else {
        assert DotOf(ops[x]) == DotOf(ops[id]);
      }
    }
  }

  /** Stores only ever handle more. */
  lemma TakeKeepsHandled(st: Store, op: Op, graph: nat, x: Op)
    requires !Rejects(st, op, graph) && Handled(st, x, graph)
    ensures Handled(Take(st, op, graph), x, graph)
  {}

  lemma TakeKeepsAccounted(p: Place, st: Store, op: Op, cursor: D.Cursor)
    requires Acyclic(p.ops) && !Rejects(st, op, p.graph) && Accounted(p, st, cursor)
    ensures Accounted(p, Take(st, op, p.graph), cursor)
  {
    forall x | x in Covered(p.ops, cursor.clock) ensures Handled(Take(st, op, p.graph), p.ops[x], p.graph) {
      TakeKeepsHandled(st, op, p.graph, p.ops[x]);
    }
  }

  lemma OnceOnlyLonger(p: Place, applied: seq<OpId>, id: OpId)
    requires Listed(p, applied) && id in p.ops && IsMutation(p.ops[id], p.graph)
    ensures OnceOnly(p, applied + [id]) == ApplyEvent(OnceOnly(p, applied), EventOf(p.ops[id]))
  {
    var records := Records(p.ops, applied);
    assert Records(p.ops, applied + [id]) == records + [p.ops[id]];
    EventsOfLonger(records, p.ops[id], p.graph, {});
    ReplayLonger(EventsOf(records, p.graph, {}), EventOf(p.ops[id]));
  }

  /** A mutation may apply once every earlier mutation of its actor has. */
  ghost predicate InTurn(p: Place, st: Store, op: Op) {
    forall x :: x in p.ops && IsMutation(p.ops[x], p.graph) && p.ops[x].actor == op.actor && p.ops[x].seq_ < op.seq_
      ==> x in st.applied
  }

  lemma AppliedClockTells(p: Place, st: Store, id: OpId)
    requires WellFormed(p.ops) && Listed(p, st.applied) && ClockTells(p, st) && id in p.ops && InTurn(p, st, p.ops[id])
    requires IsMutation(p.ops[id], p.graph) && !Contains(st.clock, DotOf(p.ops[id])) && !st.tombstoned
    ensures ClockTells(p, Take(st, p.ops[id], p.graph)) && Listed(p, Take(st, p.ops[id], p.graph).applied)
  {
    var op, new_ := p.ops[id], Take(st, p.ops[id], p.graph);
    forall x | x in p.ops && IsMutation(p.ops[x], p.graph)
      ensures Contains(new_.clock, DotOf(p.ops[x])) <==> x in new_.applied
    {
      if p.ops[x].actor == op.actor && p.ops[x].seq_ == op.seq_ {
        assert DotOf(p.ops[x]) == DotOf(op);
      }
    }
    assert id !in st.applied;
  }

  lemma TakeIsGood(p: Place, st: Store, id: OpId)
    requires WellFormed(p.ops) && Good(p, st) && id in p.ops && !Rejects(st, p.ops[id], p.graph)
    requires IsMutation(p.ops[id], p.graph) && !st.tombstoned ==> InTurn(p, st, p.ops[id])
    ensures Good(p, Take(st, p.ops[id], p.graph)) && Handled(Take(st, p.ops[id], p.graph), p.ops[id], p.graph)
  {
    var op, new_ := p.ops[id], Take(st, p.ops[id], p.graph);
    if st.cursor.Some? {
      TakeKeepsAccounted(p, st, op, st.cursor.value);
    }
    if IsMutation(op, p.graph) && !Contains(st.clock, DotOf(op)) {
      OnceOnlyLonger(p, st.applied, id);
      AppliedClockTells(p, st, id);
    }
  }

  lemma RefuseIsGood(p: Place, st: Store, id: OpId, cursor: D.Cursor)
    requires WellFormed(p.ops) && Good(p, st) && id in p.ops && Rejects(st, p.ops[id], p.graph)
    requires cursor.genesis == p.genesis && Closed(p.ops, Covered(p.ops, cursor.clock))
    requires cursor.target.Some? ==> Closed(p.ops, Covered(p.ops, cursor.target.value))
    requires forall x :: x in Covered(p.ops, cursor.clock) && x != id ==> Handled(st, p.ops[x], p.graph)
    ensures Good(p, Refuse(st, p.ops[id], cursor)) && Accounted(p, Refuse(st, p.ops[id], cursor), cursor)
  {}

  lemma HandledMutationApplied(p: Place, st: Store, x: OpId)
    requires Acyclic(p.ops) && Good(p, st) && !st.tombstoned
    requires x in p.ops && IsMutation(p.ops[x], p.graph) && Handled(st, p.ops[x], p.graph)
    ensures x in st.applied
  {}

  /** A delivered record is in turn: its actor's earlier records are consumed, so handled. */
  lemma DeliveredInTurn(p: Place, st: Store, cursor: D.Cursor, id: OpId)
    requires WellFormed(p.ops) && Good(p, st) && !st.tombstoned && Accounted(p, st, cursor)
    requires id in p.ops && p.ops[id].deps <= Covered(p.ops, cursor.clock)
    ensures InTurn(p, st, p.ops[id])
  {
    CoversOneMore(p.ops, cursor.clock, id);
    forall x | x in p.ops && IsMutation(p.ops[x], p.graph) && p.ops[x].actor == p.ops[id].actor && p.ops[x].seq_ < p.ops[id].seq_
      ensures x in st.applied
    {
      ActorChain(p.ops, x, id);
      HandledMutationApplied(p, st, x);
    }
  }

  /** A local write is in turn: earlier own records are under the clock, consumed, or control records. */
  lemma LocalInTurn(p: Place, w: World, id: OpId)
    requires WellFormed(p.ops) && Inv(p, w) && !Last(w).tombstoned
    requires Enabled(p, w, LocalWrite(id)) && IsMutation(p.ops[id], p.graph)
    ensures InTurn(p, Last(w), p.ops[id])
  {
    var st := Last(w);
    forall x | x in p.ops && IsMutation(p.ops[x], p.graph) && p.ops[x].actor == p.local && p.ops[x].seq_ < p.ops[id].seq_
      ensures x in st.applied
    {
      ActorChain(p.ops, x, id);
      ClosedHoldsPast(p.ops, w.visible, x, id);
      assert p.ops[x].seq_ <= OwnReached(st, p.local);
      if p.ops[x].seq_ <= Get(st.clock, p.local) {
        assert Contains(st.clock, DotOf(p.ops[x]));
      } else {
        assert x in Covered(p.ops, st.cursor.value.clock);
        HandledMutationApplied(p, st, x);
      }
    }
  }

  lemma DeliverKeeps(p: Place, w: World, id: OpId)
    requires WellFormed(p.ops) && Inv(p, w) && Enabled(p, w, Deliver(id))
    ensures Inv(p, Next(p, w, Deliver(id)))
  {
    var st, op, cursor := Last(w), p.ops[id], Consumed(w.session.value, p.ops[id]);
    CoversOneMore(p.ops, w.session.value.clock, id);
    if Rejects(st, op, p.graph) {
      RefuseIsGood(p, st, id, cursor);
    } else {
      if !st.tombstoned {
        DeliveredInTurn(p, st, w.session.value, id);
      }
      TakeIsGood(p, st, id);
      TakeKeepsAccounted(p, st, op, w.session.value);
    }
  }

  lemma LocalWriteKeeps(p: Place, w: World, id: OpId)
    requires WellFormed(p.ops) && Inv(p, w) && Enabled(p, w, LocalWrite(id))
    ensures Inv(p, Next(p, w, LocalWrite(id)))
  {
    var st, op := Last(w), p.ops[id];
    if IsMutation(op, p.graph) && !st.tombstoned {
      LocalInTurn(p, w, id);
    }
    TakeIsGood(p, st, id);
    if w.session.Some? {
      TakeKeepsAccounted(p, st, op, w.session.value);
    }
  }

  lemma NothingCovered(ops: Ops)
    requires Acyclic(ops)
    ensures Covered(ops, map[]) == {}
  {}

  lemma CursorChangeIsGood(p: Place, st: Store, cursor: D.Cursor)
    requires Acyclic(p.ops) && Good(p, st) && Accounted(p, st, cursor)
    ensures Good(p, st.(cursor := Some(cursor)))
    ensures forall c :: Accounted(p, st, c) ==> Accounted(p, st.(cursor := Some(cursor)), c)
  {}

  lemma BeginKeeps(p: Place, w: World, target: Option<Clock>)
    requires WellFormed(p.ops) && Inv(p, w) && Enabled(p, w, Begin(target))
    ensures Inv(p, Next(p, w, Begin(target)))
  {
    NothingCovered(p.ops);
    assert Good(p, Last(w));
  }

  lemma CursorWriteKeeps(p: Place, w: World, cursor: D.Cursor)
    requires WellFormed(p.ops) && Inv(p, w) && Accounted(p, Last(w), cursor)
    ensures Inv(p, w.(trail := w.trail + [Last(w).(cursor := Some(cursor))]))
  {
    CursorChangeIsGood(p, Last(w), cursor);
  }

  /** Every step keeps every store a crash could leave good. */
  lemma StepKeeps(p: Place, w: World, step: Step)
    requires WellFormed(p.ops) && Inv(p, w) && Enabled(p, w, step)
    ensures Inv(p, Next(p, w, step))
  {
    match step {
      case Deliver(id) => DeliverKeeps(p, w, id);
      case LocalWrite(id) => LocalWriteKeeps(p, w, id);
      case Begin(target) => BeginKeeps(p, w, target);
      case Restart =>
        NothingCovered(p.ops);
        CursorWriteKeeps(p, w, D.Cursor(w.epoch, p.genesis, map[], None));
      case WriteCursor => CursorWriteKeeps(p, w, w.session.value);
      case Change(_, _) =>
      case End =>
      case Persist =>
      case Crash(_) =>
    }
  }

  lemma {:induction false} RunKeeps(p: Place, from: World, steps: seq<Step>, to: World)
    requires WellFormed(p.ops) && Inv(p, from) && Run(p, from, steps, to)
    ensures Inv(p, to)
    decreases |steps|
  {
    if steps != [] {
      StepKeeps(p, from, steps[0]);
      RunKeeps(p, Next(p, from, steps[0]), steps[1..], to);
    }
  }

  lemma StartIsGood(p: Place)
    requires WellFormed(p.ops)
    ensures Inv(p, START)
  {
    assert Records(p.ops, []) == [];
    forall id | id in p.ops && IsMutation(p.ops[id], p.graph) ensures !Contains(map[], DotOf(p.ops[id])) {}
  }

  /**
   Whatever the interleaving of stalls, crashes, redelivery, restarts and local
   writes, no durable or live cursor passes a lost record, and the quads of every
   store a crash could leave are a once-only replay of the records it applied.
   */
  lemma EveryRunIsSafe(p: Place, steps: seq<Step>, w: World)
    requires WellFormed(p.ops) && Run(p, START, steps, w)
    ensures forall k :: 0 <= k < |w.trail| ==> Good(p, w.trail[k])
  {
    StartIsGood(p);
    RunKeeps(p, START, steps, w);
  }

  /** At any point of any run a crash can leave any commit since the last persist, and a persist makes the last one durable. */
  lemma AnyCommitCanBeLeft(p: Place, steps: seq<Step>, w: World, k: nat)
    requires WellFormed(p.ops) && Run(p, START, steps, w) && k < |w.trail|
    ensures Enabled(p, w, Crash(k)) && Next(p, w, Crash(k)).trail == [w.trail[k]] && Next(p, w, Crash(k)).session == None
    ensures Enabled(p, w, Persist) && forall i :: Enabled(p, Next(p, w, Persist), Crash(i)) ==> w.trail[|w.trail| - 1] == Last(Next(p, Next(p, w, Persist), Crash(i)))
  {}

  // ----- What becomes of a record, told by its payload -----

  /** What is in the ledger of any store a crash could leave is undecodable, invalid, or came after the graph's deletion. */
  lemma LedgerHolds(p: Place, steps: seq<Step>, w: World, k: nat, id: OpId)
    requires WellFormed(p.ops) && Run(p, START, steps, w) && k < |w.trail| && id in w.trail[k].ledger
    ensures id in p.ops
    ensures
      var op := p.ops[id];
      || op.payload.Undecodable?
      || (op.payload.GraphEvent? && op.payload.graph != p.graph)
      || (op.payload.GraphEvent? && op.payload.body.Policy? && !op.payload.body.authorized)
      || (op.payload.GraphEvent? && op.payload.body.Mutation? && !op.payload.wellFormed)
      || (op.payload.GraphEvent? && !op.payload.body.GraphDeleted? && w.trail[k].tombstoned)
  {
    EveryRunIsSafe(p, steps, w);
  }

  /** What is under a cursor of any store a crash could leave has had its effect, or is in the ledger for one of those reasons. */
  lemma CoveredHadEffect(p: Place, steps: seq<Step>, w: World, k: nat, id: OpId)
    requires WellFormed(p.ops) && Run(p, START, steps, w) && k < |w.trail|
    requires w.trail[k].cursor.Some? && id in Covered(p.ops, w.trail[k].cursor.value.clock)
    ensures
      var st, op := w.trail[k], p.ops[id];
      match op.payload
      case Control => id !in st.ledger
      case Undecodable => id in st.ledger
      case GraphEvent(g, wellFormed, body) =>
        if g != p.graph then id in st.ledger
        else
          match body
          case GraphDeleted => st.tombstoned && st.content == {} && st.clock == map[] && id !in st.ledger
          case Policy(tag, authorized) => if authorized then st.tombstoned || (tag <= st.policy && id !in st.ledger) else id in st.ledger
          case Mutation(_, _, _) => if wellFormed then id in st.applied || (st.tombstoned && id in st.ledger) else id in st.ledger
  {
    EveryRunIsSafe(p, steps, w);
    assert Handled(w.trail[k], p.ops[id], p.graph);
  }

  /** The policy of a live graph is the tag of an authorized policy of that graph, or none was set. */
  lemma PolicyWasSet(p: Place, steps: seq<Step>, w: World, k: nat)
    requires WellFormed(p.ops) && Run(p, START, steps, w) && k < |w.trail| && w.trail[k].policy > 0
    ensures !w.trail[k].tombstoned
    ensures exists id, wellFormed :: id in p.ops && p.ops[id].payload == GraphEvent(p.graph, wellFormed, Policy(w.trail[k].policy, true))
  {
    EveryRunIsSafe(p, steps, w);
    var id :| id in p.ops && SetsPolicy(p.ops[id], p.graph, w.trail[k].policy);
    assert p.ops[id].payload == GraphEvent(p.graph, p.ops[id].payload.wellFormed, Policy(w.trail[k].policy, true));
  }

  /** What a mutation does to a content, dot by dot. */
  ghost predicate Changes(before: Content, op: Op, changes: seq<Change>, after: Content) {
    var own := Dot(op.actor, op.seq_);
    forall q, d :: if d != own then Live(q, d) in after <==> Live(q, d) in before && !Withdraws(op, changes, q, d)
                   else Live(q, d) !in before ==> (Live(q, d) in after <==> Puts(op, changes, q))
  }

  /** The ledger entry and the cursor past the record, in one commit, and nothing else. */
  predicate IsRefused(before: Store, op: Op, cursor: D.Cursor, after: Store) {
    after == before.(ledger := before.ledger + {op.id}, cursor := Some(cursor))
  }

  /** What a delivered record does, told by its payload. */
  ghost predicate Does(before: Store, op: Op, graph: nat, cursor: D.Cursor, after: Store) {
    match op.payload
    case Control => after == before
    case Undecodable => IsRefused(before, op, cursor, after)
    case GraphEvent(g, wellFormed, body) =>
      if g != graph then IsRefused(before, op, cursor, after)
      else
        match body
        case GraphDeleted => after == before.(tombstoned := true, content := {}, clock := map[], policy := 0)
        case Policy(tag, authorized) =>
          if before.tombstoned || !authorized then IsRefused(before, op, cursor, after)
          else after == before.(policy := if before.policy < tag then tag else before.policy)
        case Mutation(_, changes, _) =>
          if before.tombstoned || !wellFormed then IsRefused(before, op, cursor, after)
          else if Contains(before.clock, Dot(op.actor, op.seq_)) then after == before
          else
            && Changes(before.content, op, changes, after.content) && after.applied == before.applied + [op.id]
            && (forall d: Dot :: Contains(after.clock, d) <==> Contains(before.clock, d) || (d.actor == op.actor && d.counter <= op.seq_))
            && after == before.(content := after.content, clock := after.clock, applied := after.applied)
  }

  lemma MutationChanges(s: Content, op: Op, graph: nat)
    requires Replayed(op, graph, {})
    ensures Changes(s, op, op.payload.body.changes, ApplyEvent(s, EventOf(op)))
  {
    EventIs(op, graph, {});
    var e, own := EventOf(op), Dot(op.actor, op.seq_);
    forall q, d
      ensures d != own ==> (Live(q, d) in ApplyEvent(s, e) <==> Live(q, d) in s && !Withdraws(op, e.changes, q, d))
      ensures d == own && Live(q, d) !in s ==> (Live(q, d) in ApplyEvent(s, e) <==> Puts(op, e.changes, q))
    {
      if d != own {
        ChangesOnOtherDot(s, e, e.changes, Live(q, d));
      } else if Live(q, d) !in s {
        ChangesOnOwnDot(s, e, e.changes, Live(q, d));
        PutsIsAdds(op, e, e.changes, q);
      }
    }
  }

  lemma SettleDoes(st: Store, op: Op, cursor: D.Cursor, graph: nat)
    ensures Does(st, op, graph, cursor, Settle(st, op, cursor, graph))
  {
    if Replayed(op, graph, {}) {
      MutationChanges(st.content, op, graph);
    }
  }
}

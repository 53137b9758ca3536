/**
 The publication fence. Irokle numbers own records by the last one its topic
 holds, so a topic that lost own records would hand out their numbers again.
 `own_pending` refuses to publish while that could happen.
 */
module Fence {
  import opened Wrappers
  import opened Clocks
  import opened Topics
  import opened Listings
  import D = Delivery
  import M = Reconcile

  const OWN_PAGE: nat := 256

  // ----- own_pending -----

  predicate BySequence(a: Op, b: Op) {
    a.seq_ < b.seq_
  }

  /** An actor's records after a position. */
  function OwnAfter(ops: Ops, actor: Actor, after: nat): set<Op> {
    set id | id in ops && ops[id].actor == actor && after < ops[id].seq_ :: ops[id]
  }

  lemma OwnAfterNext(ops: Ops, actor: Actor, after: nat, next: Op)
    requires Acyclic(ops) && UniquePositions(ops) && next in OwnAfter(ops, actor, after)
    requires forall x :: x in OwnAfter(ops, actor, after) ==> next.seq_ <= x.seq_
    ensures OwnAfter(ops, actor, after) == {next} + OwnAfter(ops, actor, next.seq_)
  {
    forall x | x in OwnAfter(ops, actor, after) ensures x == next || x in OwnAfter(ops, actor, next.seq_) {
      if x.seq_ == next.seq_ {
        assert DotOf(ops[x.id]) == DotOf(ops[next.id]);
      }
    }
  }

  /** `page` lists the actor's records after `after` up to position `last`, in sequence. */
  ghost predicate Ranged(ops: Ops, actor: Actor, after: nat, page: seq<Op>, last: nat) {
    && (page == [] ==> last == after) && (page != [] ==> last == page[|page| - 1].seq_)
    && Sorted(BySequence, page) && (forall x :: x in page ==> x.seq_ <= last)
    && OwnAfter(ops, actor, after) == Elements(page) + OwnAfter(ops, actor, last)
  }

  lemma SequencedLonger(page: seq<Op>, last: nat, next: Op)
    requires Sorted(BySequence, page) && (forall x :: x in page ==> x.seq_ <= last) && last < next.seq_
    ensures Sorted(BySequence, page + [next]) && forall x :: x in page + [next] ==> x.seq_ <= next.seq_
    ensures Elements(page + [next]) == Elements(page) + {next}
  {
    forall i | 0 <= i < |page| ensures BySequence(page[i], next) {
      assert page[i] in page;
    }
  }

  lemma RangedLonger(ops: Ops, actor: Actor, after: nat, page: seq<Op>, last: nat, next: Op)
    requires Acyclic(ops) && UniquePositions(ops) && Ranged(ops, actor, after, page, last)
    requires D.IsAfter(ops, actor, last, next.id) && ops[next.id] == next
    requires forall id :: D.IsAfter(ops, actor, last, id) ==> next.seq_ <= ops[id].seq_
    ensures Ranged(ops, actor, after, page + [next], next.seq_)
  {
    SequencedLonger(page, last, next);
    assert OwnAfter(ops, actor, last) == {next} + OwnAfter(ops, actor, next.seq_) by {
      assert forall x :: x in OwnAfter(ops, actor, last) ==> D.IsAfter(ops, actor, last, x.id);
      OwnAfterNext(ops, actor, last, next);
    }
  }

  lemma RangedLeads(ops: Ops, actor: Actor, after: nat, page: seq<Op>, last: nat)
    requires Ranged(ops, actor, after, page, last)
    ensures LeadingPart(BySequence, OwnAfter(ops, actor, after), page)
  {
    forall i, x | 0 <= i < |page| && x in OwnAfter(ops, actor, after) && x !in page ensures BySequence(page[i], x) {
      assert x in OwnAfter(ops, actor, last) && page[i] in page;
    }
  }

  /** `actor_range`: the actor's next records in sequence, at most one page of them. */
  method ActorRange(ops: Ops, actor: Actor, after: nat) returns (page: seq<Op>)
    requires Acyclic(ops) && UniquePositions(ops)
    ensures LeadingPart(BySequence, OwnAfter(ops, actor, after), page) && |page| <= OWN_PAGE
    ensures |page| < OWN_PAGE ==> Elements(page) == OwnAfter(ops, actor, after)
  {
    page := [];
    var last := after;
    while |page| < OWN_PAGE
      invariant |page| <= OWN_PAGE && Ranged(ops, actor, after, page, last)
    {
      var next := D.NextRecord(ops, actor, last);
      if next.None? {
        assert OwnAfter(ops, actor, last) == {} by {
          assert forall id :: id in ops ==> !D.IsAfter(ops, actor, last, id);
        }
        break;
      }
      RangedLonger(ops, actor, after, page, last, next.value);
      page, last := page + [next.value], next.value.seq_;
    }
    RangedLeads(ops, actor, after, page, last);
  }

  /** The topic lost own records whose effects are applied, or the cursor names another branch. */
  predicate Fenced(applied: nat, own: nat, cursor: Option<D.Cursor>, epoch: nat, genesis: OpId) {
    applied > own || (cursor.Some? && (cursor.value.epoch != epoch || cursor.value.genesis != genesis))
  }

  /** `least` is the first own record after `after` that is more than a control record. */
  ghost predicate FirstOwn(ops: Ops, local: Actor, after: nat, least: nat) {
    && (exists x :: x in OwnAfter(ops, local, after) && x.seq_ == least && !x.payload.Control?)
    && forall x :: x in OwnAfter(ops, local, after) && x.seq_ < least ==> x.payload.Control?
  }

  ghost predicate NoOwn(ops: Ops, local: Actor, after: nat) {
    forall x :: x in OwnAfter(ops, local, after) ==> x.payload.Control?
  }

  /** An own record, more than a control record, that is neither applied nor consumed. */
  predicate Waits(ops: Ops, local: Actor, clock: Clock, cursor: Option<D.Cursor>, id: OpId) {
    && id in ops && ops[id].actor == local && !ops[id].payload.Control?
    && ops[id].seq_ > Get(clock, local) && (cursor.Some? ==> ops[id].seq_ > Get(cursor.value.clock, local))
  }

  /** The first record of a page that is more than a control record. */
  method FirstEvent(page: seq<Op>) returns (r: Option<nat>)
    ensures r.None? ==> forall i :: 0 <= i < |page| ==> page[i].payload.Control?
    ensures r.Some? ==> exists i :: 0 <= i < |page| && page[i].seq_ == r.value && !page[i].payload.Control?
                                    && forall j :: 0 <= j < i ==> page[j].payload.Control?
  {
    for i := 0 to |page|
      invariant forall j :: 0 <= j < i ==> page[j].payload.Control?
    {
      if !page[i].payload.Control? {
        return Some(page[i].seq_);
      }
    }
    return None;
  }

  lemma FirstOnPage(ops: Ops, local: Actor, after: nat, page: seq<Op>, i: nat)
    requires LeadingPart(BySequence, OwnAfter(ops, local, after), page) && i < |page|
    requires !page[i].payload.Control? && forall j :: 0 <= j < i ==> page[j].payload.Control?
    ensures FirstOwn(ops, local, after, page[i].seq_)
  {
    assert page[i] in Elements(page);
    forall x | x in OwnAfter(ops, local, after) && x.seq_ < page[i].seq_ ensures x.payload.Control? {
      assert x !in page ==> BySequence(page[i], x);
      var j :| 0 <= j < |page| && page[j] == x;
      assert i < j ==> BySequence(page[i], page[j]);
    }
  }

  /** `Some(0)` when fenced, else the first own record neither applied nor consumed, control records aside. */
  method OwnPending(bound: bool, view: D.View, local: Actor, clock: Clock, cursor: Option<D.Cursor>) returns (r: Option<nat>)
    requires WellFormed(view.ops)
    ensures
      var fenced :=
        || Get(clock, local) > Get(view.clock, local)
        || (cursor.Some? && (cursor.value.epoch != view.epoch || cursor.value.genesis != view.genesis));
      && (!bound ==> r == None)
      && (bound ==> (r == Some(0) <==> fenced))
      && (bound && !fenced && r.Some? ==>
            && (exists id :: Waits(view.ops, local, clock, cursor, id) && view.ops[id].seq_ == r.value)
            && forall id :: Waits(view.ops, local, clock, cursor, id) ==> r.value <= view.ops[id].seq_)
      && (bound && r.None? ==> forall id :: !Waits(view.ops, local, clock, cursor, id))
  {
    if !bound {
      return None;
    }
    var applied := Get(clock, local);
    if applied > Get(view.clock, local) {
      return Some(0);
    }
    if cursor.Some? && (cursor.value.epoch != view.epoch || cursor.value.genesis != view.genesis) {
      return Some(0);
    }
    r := ScanOwn(view.ops, local, D.Furthest(applied, cursor, local));
    assert forall id :: Waits(view.ops, local, clock, cursor, id) ==>
                          view.ops[id] in OwnAfter(view.ops, local, D.Furthest(applied, cursor, local));
  }

  /** Page after page of own records. */
  method ScanOwn(ops: Ops, local: Actor, start: nat) returns (r: Option<nat>)
    requires WellFormed(ops)
    ensures r.Some? ==> r.value > 0 && FirstOwn(ops, local, start, r.value)
    ensures r.None? ==> NoOwn(ops, local, start)
  {
    var after := start;
    while true
      invariant start <= after
      invariant forall x :: x in OwnAfter(ops, local, start) && x.seq_ <= after ==> x.payload.Control?
      decreases OwnAfter(ops, local, after)
    {
      var page := ActorRange(ops, local, after);
      if page == [] {
        assert OwnAfter(ops, local, after) == Elements<Op>([]);
        assert forall x :: x in OwnAfter(ops, local, start) && x.seq_ > after ==> x in OwnAfter(ops, local, after);
        return None;
      }
      var first := FirstEvent(page);
      if first.Some? {
        ghost var i :| 0 <= i < |page| && page[i].seq_ == first.value && !page[i].payload.Control?
                       && forall j :: 0 <= j < i ==> page[j].payload.Control?;
        FirstOnPage(ops, local, after, page, i);
        FirstAfterControl(ops, local, start, after, first.value);
        return first;
      }
      ghost var last := page[|page| - 1];
      assert last in Elements(page);
      ControlPage(ops, local, start, after, page);
      after := page[|page| - 1].seq_;
    }
  }

  lemma FirstAfterControl(ops: Ops, local: Actor, start: nat, after: nat, least: nat)
    requires start <= after && FirstOwn(ops, local, after, least)
    requires forall x :: x in OwnAfter(ops, local, start) && x.seq_ <= after ==> x.payload.Control?
    ensures FirstOwn(ops, local, start, least) && least > 0
  {
    var x :| x in OwnAfter(ops, local, after) && x.seq_ == least && !x.payload.Control?;
    assert x in OwnAfter(ops, local, start);
    forall y | y in OwnAfter(ops, local, start) && y.seq_ < least ensures y.payload.Control? {
      assert y.seq_ > after ==> y in OwnAfter(ops, local, after);
    }
  }

  lemma ControlPage(ops: Ops, local: Actor, start: nat, after: nat, page: seq<Op>)
    requires start <= after && page != [] && LeadingPart(BySequence, OwnAfter(ops, local, after), page)
    requires forall x :: x in OwnAfter(ops, local, start) && x.seq_ <= after ==> x.payload.Control?
    requires forall i :: 0 <= i < |page| ==> page[i].payload.Control?
    ensures after < page[|page| - 1].seq_
    ensures forall x :: x in OwnAfter(ops, local, start) && x.seq_ <= page[|page| - 1].seq_ ==> x.payload.Control?
    ensures OwnAfter(ops, local, page[|page| - 1].seq_) < OwnAfter(ops, local, after)
  {
    var last := page[|page| - 1];
    assert last in Elements(page);
    forall x | x in OwnAfter(ops, local, start) && x.seq_ <= last.seq_ ensures x.payload.Control? {
      if x.seq_ > after {
        assert x in OwnAfter(ops, local, after);
        assert x !in page ==> BySequence(last, x);
      }
    }
    assert OwnAfter(ops, local, last.seq_) <= OwnAfter(ops, local, after);
    assert last in OwnAfter(ops, local, after) && last !in OwnAfter(ops, local, last.seq_);
  }

  // ----- Every run of publishing, applying, resetting and repairing -----

  /** Graph events that carry a dot, other graph events, and membership records. */
  datatype Kind = Write | Event | Membership

  datatype Own = Own(id: OpId, kind: Kind)

  /**
   `own` is what the topic holds of this node's records, the first at sequence 1.
   `applied` is the graph clock at the local actor. `ever` remembers which record
   every own dot ever applied belonged to.
   */
  datatype Node = Node(
    own: seq<Own>,
    epoch: nat,
    genesis: OpId,
    applied: nat,
    cursor: Option<D.Cursor>,
    tombstoned: bool,
    ever: map<nat, OpId>)

  datatype Step =
    | Publish(record: Own)
    | Apply(sequence: nat) // the writer's own apply
    | Reconcile // consumes the next own record
    | Admit(more: seq<Own>) // own records peers hand back
    | Reset(own: seq<Own>, epoch: nat, genesis: OpId)
    | Restart
    | Repair(position: nat)
    | DeleteGraph

  function CursorAt(n: Node, local: Actor, position: nat): D.Cursor {
    D.Cursor(n.epoch, n.genesis, map[local := position], None)
  }

  predicate IsFenced(n: Node) {
    Fenced(n.applied, |n.own|, n.cursor, n.epoch, n.genesis)
  }

  /** Nothing own before `sequence` waits to be applied. */
  predicate ClearBefore(n: Node, local: Actor, sequence: nat) {
    forall k :: D.Furthest(n.applied, n.cursor, local) <= k < |n.own| && k + 1 < sequence ==> n.own[k].kind == Membership
  }

  predicate Enabled(local: Actor, n: Node, step: Step) {
    match step
    case Publish(record) =>
      && !IsFenced(n)
      && (record.kind == Write ==> !n.tombstoned && ClearBefore(n, local, |n.own| + 1))
      && (record.kind == Event ==> !n.tombstoned)
    case Apply(sequence) =>
      && 0 < sequence <= |n.own| && n.own[sequence - 1].kind == Write && !n.tombstoned
      && !IsFenced(n) && ClearBefore(n, local, sequence)
    case Reconcile =>
      && (n.cursor.Some? ==> n.cursor.value.epoch == n.epoch && n.cursor.value.genesis == n.genesis)
      && Consumed(n, local) < |n.own|
    case Admit(_) => true
    case Reset(_, _, _) => true
    case Restart =>
      && n.cursor.Some? && n.cursor.value.genesis == n.genesis && n.cursor.value.epoch != n.epoch
      && Consumed(n, local) <= |n.own|
    case Repair(position) => position <= |n.own|
    case DeleteGraph => true
  }

  function Consumed(n: Node, local: Actor): nat {
    Get(D.CursorClock(n.cursor), local)
  }

  /** Applying an own record: once, by the graph clock, while the graph lives. */
  function Applied(n: Node, sequence: nat): Node
    requires 0 < sequence <= |n.own|
  {
    if n.tombstoned || n.own[sequence - 1].kind != Write || sequence <= n.applied then n
    else n.(applied := sequence, ever := n.ever[sequence := n.own[sequence - 1].id])
  }

  function Next(local: Actor, n: Node, step: Step): Node
    requires Enabled(local, n, step)
  {
    match step
    case Publish(record) => n.(own := n.own + [record])
    case Apply(sequence) => Applied(n, sequence)
    case Reconcile =>
      var position := Consumed(n, local) + 1;
      Applied(n, position).(cursor := Some(CursorAt(n, local, position)))
    case Admit(more) => n.(own := n.own + more)
    case Reset(own, epoch, genesis) => n.(own := own, epoch := epoch, genesis := genesis)
    case Restart => n.(cursor := Some(D.Cursor(n.epoch, n.genesis, map[], None)))
    case Repair(position) => n.(cursor := Some(CursorAt(n, local, position)))
    case DeleteGraph => n.(tombstoned := true, applied := 0) // deletion drops the graph clock
  }

  ghost predicate Run(local: Actor, from: Node, steps: seq<Step>, to: Node)
    decreases |steps|
  {
    if steps == [] then from == to
    else Enabled(local, from, steps[0]) && Run(local, Next(local, from, steps[0]), steps[1..], to)
  }

  function Fresh(epoch: nat, genesis: OpId): Node {
    Node([], epoch, genesis, 0, None, false, map[])
  }

  /** On a live graph the clock stands at the last own dot ever applied. */
  ghost predicate Remembers(n: Node) {
    !n.tombstoned ==> forall k :: k in n.ever ==> k <= n.applied
  }

  /** No dot is ever given to a second record. */
  ghost predicate Extends(older: map<nat, OpId>, newer: map<nat, OpId>) {
    forall k :: k in older ==> k in newer && newer[k] == older[k]
  }

  lemma {:induction false} RunRemembers(local: Actor, from: Node, steps: seq<Step>, to: Node)
    requires Remembers(from) && Run(local, from, steps, to)
    ensures Remembers(to) && Extends(from.ever, to.ever)
    decreases |steps|
  {
    if steps != [] {
      RunRemembers(local, Next(local, from, steps[0]), steps[1..], to);
    }
  }

  /** Whatever happened before, a record published for a live graph gets a sequence no applied dot has had. */
  lemma PublicationFence(local: Actor, epoch: nat, genesis: OpId, steps: seq<Step>, n: Node, record: Own)
    requires Run(local, Fresh(epoch, genesis), steps, n) && Enabled(local, n, Publish(record)) && !n.tombstoned
    ensures
      var next := Next(local, n, Publish(record));
      next.own[|next.own| - 1] == record && forall k :: k in n.ever ==> k < |next.own|
  {
    RunRemembers(local, Fresh(epoch, genesis), steps, n);
  }

  /** Own dots that were applied at some point keep their one record to the end of every run. */
  lemma DotsNameOneRecord(local: Actor, epoch: nat, genesis: OpId, before: seq<Step>, n: Node, after: seq<Step>, end: Node)
    requires Run(local, Fresh(epoch, genesis), before, n) && Run(local, n, after, end)
    ensures forall k :: k in n.ever ==> k in end.ever && end.ever[k] == n.ever[k]
  {
    RunRemembers(local, Fresh(epoch, genesis), before, n);
    RunRemembers(local, n, after, end);
  }

  /** The topic never shows `genesis` during the run, and nobody repairs the cursor. */
  ghost predicate StaysAway(genesis: OpId, from: Node, steps: seq<Step>) {
    && from.genesis != genesis
    && forall i :: 0 <= i < |steps| ==> !steps[i].Repair? && (steps[i].Reset? ==> steps[i].genesis != genesis)
  }

  /** A cursor of another genesis does not move, and nothing at all is published, until it is repaired or its genesis is back. */
  lemma {:induction false} ForeignCursorBlocks(local: Actor, from: Node, steps: seq<Step>, to: Node)
    requires Run(local, from, steps, to) && from.cursor.Some? && StaysAway(from.cursor.value.genesis, from, steps)
    ensures to.cursor == from.cursor && to.genesis != from.cursor.value.genesis
    ensures forall i :: 0 <= i < |steps| ==> !steps[i].Publish? && !steps[i].Reconcile?
    decreases |steps|
  {
    if steps != [] {
      var mid := Next(local, from, steps[0]);
      assert StaysAway(from.cursor.value.genesis, mid, steps[1..]);
      ForeignCursorBlocks(local, mid, steps[1..], to);
      forall i | 0 <= i < |steps| ensures !steps[i].Publish? && !steps[i].Reconcile? {
        assert i > 0 ==> steps[i] == steps[1..][i - 1];
      }
    }
  }

  /** The topic never shows the cursor's branch during the run, and nobody restarts or repairs the cursor. */
  ghost predicate StaysOff(branch: D.Cursor, from: Node, steps: seq<Step>) {
    && (from.epoch != branch.epoch || from.genesis != branch.genesis)
    && forall i :: 0 <= i < |steps| ==>
                     && !steps[i].Repair? && !steps[i].Restart?
                     && (steps[i].Reset? ==> steps[i].epoch != branch.epoch || steps[i].genesis != branch.genesis)
  }

  /** A cursor of another epoch, too, blocks everything until it is restarted or repaired or its branch is back. */
  lemma {:induction false} OtherBranchBlocks(local: Actor, from: Node, steps: seq<Step>, to: Node)
    requires Run(local, from, steps, to) && from.cursor.Some? && StaysOff(from.cursor.value, from, steps)
    ensures to.cursor == from.cursor && (to.epoch != from.cursor.value.epoch || to.genesis != from.cursor.value.genesis)
    ensures forall i :: 0 <= i < |steps| ==> !steps[i].Publish? && !steps[i].Apply? && !steps[i].Reconcile?
    decreases |steps|
  {
    if steps != [] {
      var mid := Next(local, from, steps[0]);
      assert StaysOff(from.cursor.value, mid, steps[1..]);
      OtherBranchBlocks(local, mid, steps[1..], to);
      forall i | 0 <= i < |steps| ensures !steps[i].Publish? && !steps[i].Apply? && !steps[i].Reconcile? {
        assert i > 0 ==> steps[i] == steps[1..][i - 1];
      }
    }
  }

  /** Own records the cursor consumed stay lost all through the run. */
  ghost predicate StaysLost(local: Actor, consumed: nat, from: Node, steps: seq<Step>)
    decreases |steps|
  {
    |from.own| < consumed
    && (steps != [] ==> Enabled(local, from, steps[0]) && StaysLost(local, consumed, Next(local, from, steps[0]), steps[1..]))
  }

  /** Until they are back not even a restart lifts the fence of another epoch. */
  lemma {:induction false} LostRecordsBlock(local: Actor, from: Node, steps: seq<Step>, to: Node)
    requires Run(local, from, steps, to) && from.cursor.Some? && StaysLost(local, Consumed(from, local), from, steps)
    requires from.epoch != from.cursor.value.epoch || from.genesis != from.cursor.value.genesis
    requires forall i :: 0 <= i < |steps| && steps[i].Reset? ==>
                           steps[i].epoch != from.cursor.value.epoch || steps[i].genesis != from.cursor.value.genesis
    requires forall i :: 0 <= i < |steps| ==> !steps[i].Repair?
    ensures to.cursor == from.cursor
    ensures forall i :: 0 <= i < |steps| ==> !steps[i].Publish? && !steps[i].Apply? && !steps[i].Reconcile? && !steps[i].Restart?
    decreases |steps|
  {
    if steps != [] {
      assert forall i :: 0 <= i < |steps| - 1 ==> steps[1..][i] == steps[i + 1];
      LostRecordsBlock(local, Next(local, from, steps[0]), steps[1..], to);
      forall i | 0 < i < |steps| ensures !steps[i].Publish? && !steps[i].Apply? && !steps[i].Reconcile? && !steps[i].Restart? {
        assert steps[i] == steps[1..][i - 1];
      }
    }
  }

  /** A write that may be published may be applied by its writer at once, and its dot then names it. */
  lemma PublishThenApply(local: Actor, n: Node, record: Own)
    requires record.kind == Write && Enabled(local, n, Publish(record))
    ensures
      var mid := Next(local, n, Publish(record));
      var sequence := |mid.own|;
      && Enabled(local, mid, Apply(sequence))
      && var end := Next(local, mid, Apply(sequence));
         end.applied == sequence && sequence in end.ever && end.ever[sequence] == record.id
  {
    var mid := Next(local, n, Publish(record));
    assert forall k :: 0 <= k < |n.own| ==> mid.own[k] == n.own[k];
  }

  // ----- The gate of the machines is `own_pending` -----

  /** A view that shows the node's own records, the first at sequence 1, with control records for memberships. */
  ghost predicate ShowsOwn(view: D.View, local: Actor, n: Node) {
    && view.epoch == n.epoch && view.genesis == n.genesis && Get(view.clock, local) == |n.own|
    && (forall id :: id in view.ops && view.ops[id].actor == local ==>
                       && 0 < view.ops[id].seq_ <= |n.own|
                       && (view.ops[id].payload.Control? <==> n.own[view.ops[id].seq_ - 1].kind == Membership))
    && (forall s: nat :: 0 < s <= |n.own| ==> D.HoldsPosition(view.ops, local, s))
  }

  /** A graph write may be published exactly when the graph lives and `own_pending` finds neither a fence nor a waiting record. */
  lemma GateIsOwnPending(view: D.View, local: Actor, n: Node, id: OpId)
    requires ShowsOwn(view, local, n)
    ensures Enabled(local, n, Publish(Own(id, Write))) <==>
              && !n.tombstoned && n.applied <= Get(view.clock, local)
              && (n.cursor.Some? ==> n.cursor.value.epoch == view.epoch && n.cursor.value.genesis == view.genesis)
              && forall x :: !Waits(view.ops, local, map[local := n.applied], n.cursor, x)
  {
    forall k | D.Furthest(n.applied, n.cursor, local) <= k < |n.own| && n.own[k].kind != Membership
      ensures exists x :: Waits(view.ops, local, map[local := n.applied], n.cursor, x)
    {
      assert D.HoldsPosition(view.ops, local, k + 1);
      var x :| x in view.ops && DotOf(view.ops[x]) == Dot(local, k + 1);
      assert Waits(view.ops, local, map[local := n.applied], n.cursor, x);
    }
  }

  /** The reconcile machine lets a local mutation in exactly when no own record before it waits. */
  lemma LocalGateIsOwnPending(p: M.Place, w: M.World, sequence: nat)
    requires w.trail != []
    ensures M.NonePendingBefore(p, w, sequence) <==>
              forall x :: x in w.visible && Waits(p.ops, p.local, M.Last(w).clock, M.Last(w).cursor, x) ==> sequence <= p.ops[x].seq_
  {}

  // ----- Deleted graphs -----

  lemma RunThen(local: Actor, from: Node, step: Step, rest: seq<Step>, to: Node)
    requires Enabled(local, from, step) && Run(local, Next(local, from, step), rest, to)
    ensures Run(local, from, [step] + rest, to)
  {
    assert ([step] + rest)[1..] == rest;
  }

  /** Sequences start at 1, and a deleted graph has no clock. */
  ghost predicate Plain(n: Node) {
    (n.tombstoned ==> n.applied == 0) && forall k :: k in n.ever ==> k > 0
  }

  lemma {:induction false} RunPlain(local: Actor, from: Node, steps: seq<Step>, to: Node)
    requires Plain(from) && Run(local, from, steps, to)
    ensures Plain(to)
    decreases |steps|
  {
    if steps != [] {
      RunPlain(local, Next(local, from, steps[0]), steps[1..], to);
    }
  }

  /** Without another deletion, a live graph stays live and a deleted one applies nothing more. */
  lemma {:induction false} RunWithoutDelete(local: Actor, from: Node, steps: seq<Step>, to: Node)
    requires Run(local, from, steps, to) && DeleteGraph !in steps
    ensures to.tombstoned == from.tombstoned && (from.tombstoned ==> to.ever == from.ever)
    decreases |steps|
  {
    if steps != [] {
      assert steps[0] in steps && forall x :: x in steps[1..] ==> x in steps;
      RunWithoutDelete(local, Next(local, from, steps[0]), steps[1..], to);
    }
  }

  /** Some continuation without a deletion publishes at a sequence that an applied dot has had. */
  ghost predicate CanReuse(local: Actor, n: Node) {
    exists steps, m, record :: Reuse(local, n, steps, m, record)
  }

  ghost predicate Reuse(local: Actor, n: Node, steps: seq<Step>, m: Node, record: Own) {
    Run(local, n, steps, m) && DeleteGraph !in steps && Enabled(local, m, Publish(record)) && |m.own| + 1 in m.ever
  }

  function Members(count: nat): seq<Own> {
    seq(count, i => Own(0, Membership))
  }

  /** With no cursor, one reset to a shorter topic is enough. */
  lemma ReuseWithoutCursor(local: Actor, n: Node, k: nat)
    requires Plain(n) && n.tombstoned && n.cursor.None? && k in n.ever
    ensures CanReuse(local, n)
  {
    var reset := Reset(Members(k - 1), n.epoch + 1, n.genesis);
    var m := Next(local, n, reset);
    RunThen(local, n, reset, [], m);
    assert Reuse(local, n, [reset] + [], m, Own(0, Membership));
  }

  /** A cursor is made to forget by a reset that hands the own records back, a restart, and a reset that does not. */
  lemma ReuseWithCursor(local: Actor, n: Node, k: nat)
    requires Plain(n) && n.tombstoned && n.cursor.Some? && k in n.ever
    ensures CanReuse(local, n)
  {
    var cursor := n.cursor.value;
    var full := Reset(Members(Consumed(n, local)), cursor.epoch + 1, cursor.genesis);
    var short := Reset(Members(k - 1), cursor.epoch + 2, cursor.genesis);
    var n1 := Next(local, n, full);
    var n2 := Next(local, n1, Restart);
    var n3 := Next(local, n2, short);
    var n4 := Next(local, n3, Restart);
    RunThen(local, n3, Restart, [], n4);
    RunThen(local, n2, short, [Restart] + [], n4);
    RunThen(local, n1, Restart, [short] + ([Restart] + []), n4);
    var steps := [full] + ([Restart] + ([short] + ([Restart] + [])));
    RunThen(local, n, full, steps[1..], n4);
    assert Reuse(local, n, steps, n4, Own(0, Membership));
  }

  /**
   Exactly when the fence can fail: once the graph is deleted, if any own dot was
   ever applied. Deletion drops the graph clock, and the cursor, if there is one,
   can be made to forget.
   */
  lemma FenceFailsIff(local: Actor, epoch: nat, genesis: OpId, steps: seq<Step>, n: Node)
    requires Run(local, Fresh(epoch, genesis), steps, n)
    ensures CanReuse(local, n) <==> n.tombstoned && n.ever != map[]
  {
    RunRemembers(local, Fresh(epoch, genesis), steps, n);
    RunPlain(local, Fresh(epoch, genesis), steps, n);
    if n.tombstoned && n.ever != map[] {
      var k :| k in n.ever;
      if n.cursor.None? {
        ReuseWithoutCursor(local, n, k);
      } else {
        ReuseWithCursor(local, n, k);
      }
    }
    forall more, m, record | Reuse(local, n, more, m, record) ensures n.tombstoned && n.ever != map[] {
      RunWithoutDelete(local, n, more, m);
      RunRemembers(local, n, more, m);
    }
  }
}

/**
 A topic: a causal DAG of signed operations, as Irokle stores it. `WellFormed`
 gathers what Irokle promises of it: an operation is younger than its
 dependencies, an actor's operations form a chain, and an operation's observed
 clock covers exactly its causal past. Whether that clock also covers the
 operation itself is left open.
 */
module Topics {
  import opened Wrappers
  import opened Clocks
  import opened OrSet

  type OpId = nat

  datatype Body =
    | Mutation(id: nat, changes: seq<Change>, hints: Option<Hints>)
    | Policy(tag: nat, authorized: bool)
    | GraphDeleted

  /** `wellFormed` is the verdict of the commit and term checks on the event. */
  datatype Payload =
    | Control
    | Undecodable
    | GraphEvent(graph: nat, wellFormed: bool, body: Body)

  datatype Op = Op(
    id: OpId,
    actor: Actor,
    seq_: nat,
    generation: nat,
    deps: set<OpId>,
    observed: Clock,
    payload: Payload,
    size: nat)

  type Ops = map<OpId, Op>

  function DotOf(op: Op): Dot {
    Dot(op.actor, op.seq_)
  }

  ghost predicate Acyclic(ops: Ops) {
    && (forall id :: id in ops ==> ops[id].id == id && ops[id].seq_ > 0)
    && (forall id, d :: id in ops && d in ops[id].deps ==> d in ops && ops[d].generation < ops[id].generation)
  }

  /** `a` is `b` or in its causal past. */
  ghost predicate Below(ops: Ops, a: OpId, b: OpId)
    requires Acyclic(ops) && b in ops
    decreases ops[b].generation
  {
    a == b || exists d :: d in ops[b].deps && Below(ops, a, d)
  }

  ghost predicate UniquePositions(ops: Ops) {
    forall a, b {:trigger DotOf(ops[a]), DotOf(ops[b])} :: a in ops && b in ops && DotOf(ops[a]) == DotOf(ops[b]) ==> a == b
  }

  /** `b` depends on an operation of its own actor at or after `a`. */
  ghost predicate ChainStep(ops: Ops, a: OpId, b: OpId)
    requires Acyclic(ops) && a in ops && b in ops
  {
    exists d :: d in ops[b].deps && ops[d].actor == ops[b].actor && ops[a].seq_ <= ops[d].seq_ < ops[b].seq_
  }

  ghost predicate Chained(ops: Ops)
    requires Acyclic(ops)
  {
    forall a, b {:trigger ChainStep(ops, a, b)} ::
      a in ops && b in ops && ops[a].actor == ops[b].actor && ops[a].seq_ < ops[b].seq_ ==> ChainStep(ops, a, b)
  }

  ghost predicate ObservesPast(ops: Ops)
    requires Acyclic(ops)
  {
    forall a, b {:trigger Below(ops, a, b)} {:trigger Contains(ops[b].observed, DotOf(ops[a]))} ::
      a in ops && b in ops && a != b ==> (Contains(ops[b].observed, DotOf(ops[a])) <==> Below(ops, a, b))
  }

  ghost predicate WellFormed(ops: Ops) {
    Acyclic(ops) && UniquePositions(ops) && Chained(ops) && ObservesPast(ops)
  }

  lemma {:induction false} BelowIsOlder(ops: Ops, a: OpId, b: OpId)
    requires Acyclic(ops) && b in ops && Below(ops, a, b)
    ensures a in ops && (a != b ==> ops[a].generation < ops[b].generation)
    decreases ops[b].generation
  {
    if a != b {
      var d :| d in ops[b].deps && Below(ops, a, d);
      BelowIsOlder(ops, a, d);
    }
  }

  lemma {:induction false} BelowTransitive(ops: Ops, a: OpId, b: OpId, c: OpId)
    requires Acyclic(ops) && c in ops && b in ops && Below(ops, a, b) && Below(ops, b, c)
    ensures Below(ops, a, c)
    decreases ops[c].generation
  {
    if b != c {
      var d :| d in ops[c].deps && Below(ops, b, d);
      BelowTransitive(ops, a, b, d);
    }
  }

  /** An actor's earlier operation is in the past of its later ones. */
  lemma {:induction false} ActorChain(ops: Ops, a: OpId, b: OpId)
    requires WellFormed(ops) && a in ops && b in ops
    requires ops[a].actor == ops[b].actor && ops[a].seq_ < ops[b].seq_
    ensures Below(ops, a, b) && ops[a].generation < ops[b].generation
    decreases ops[b].seq_
  {
    assert ChainStep(ops, a, b);
    var d :| d in ops[b].deps && ops[d].actor == ops[b].actor && ops[a].seq_ <= ops[d].seq_ < ops[b].seq_;
    if ops[a].seq_ < ops[d].seq_ {
      ActorChain(ops, a, d);
    } else {
      assert DotOf(ops[a]) == DotOf(ops[d]);
    }
  }

  // ----- Causally closed sets -----

  ghost predicate Closed(ops: Ops, ids: set<OpId>)
    requires Acyclic(ops)
  {
    && ids <= ops.Keys
    && forall id :: id in ids ==> ops[id].deps <= ids
  }

  lemma {:induction false} ClosedHoldsPast(ops: Ops, ids: set<OpId>, a: OpId, b: OpId)
    requires Acyclic(ops) && Closed(ops, ids) && b in ids && Below(ops, a, b)
    ensures a in ids
    decreases ops[b].generation
  {
    if a != b {
      var d :| d in ops[b].deps && Below(ops, a, d);
      ClosedHoldsPast(ops, ids, a, d);
    }
  }

  /** The operations a clock covers. */
  function Covered(ops: Ops, clock: Clock): set<OpId> {
    set id | id in ops && ops[id].seq_ <= Get(clock, ops[id].actor)
  }

  ghost predicate InPast(ops: Ops, heads: set<OpId>, id: OpId)
    requires Acyclic(ops) && heads <= ops.Keys
  {
    exists h :: h in heads && Below(ops, id, h)
  }

  ghost function PastOf(ops: Ops, heads: set<OpId>): set<OpId>
    requires Acyclic(ops) && heads <= ops.Keys
  {
    set id | id in ops && InPast(ops, heads, id)
  }

  lemma PastIsClosed(ops: Ops, heads: set<OpId>)
    requires Acyclic(ops) && heads <= ops.Keys
    ensures Closed(ops, PastOf(ops, heads))
  {
    forall x, d | x in PastOf(ops, heads) && d in ops[x].deps ensures d in PastOf(ops, heads) {
      var h :| h in heads && Below(ops, x, h);
      assert Below(ops, d, d) && Below(ops, d, x);
      BelowTransitive(ops, d, x, h);
    }
  }

  /** Operations no other operation depends on. */
  ghost function Heads(ops: Ops): set<OpId> {
    set id | id in ops && forall c :: c in ops ==> id !in ops[c].deps
  }

  lemma {:induction false} SomeHeadAbove(ops: Ops, id: OpId) returns (h: OpId)
    requires Acyclic(ops) && id in ops
    ensures h in Heads(ops) && Below(ops, id, h)
    decreases |set x | x in ops && ops[x].generation > ops[id].generation|
  {
    if id in Heads(ops) {
      h := id;
    } else {
      var c :| c in ops && id in ops[c].deps;
      var above := set x | x in ops && ops[x].generation > ops[id].generation;
      var higher := set x | x in ops && ops[x].generation > ops[c].generation;
      assert c in above && c !in higher && higher <= above;
      assert higher < above;
      ProperSubsetIsSmaller(higher, above);
      h := SomeHeadAbove(ops, c);
      assert Below(ops, id, c);
      BelowTransitive(ops, id, c, h);
    }
  }

  lemma ProperSubsetIsSmaller<T>(a: set<T>, b: set<T>)
    requires a < b
    ensures |a| < |b|
  {
    assert b == a + (b - a);
    assert |b| == |a| + |b - a|;
    assert b - a != {};
  }

  /** The heads' causal past is the whole topic. */
  lemma HeadsReachAll(ops: Ops)
    requires Acyclic(ops)
    ensures PastOf(ops, Heads(ops)) == ops.Keys
  {
    forall id | id in ops ensures id in PastOf(ops, Heads(ops)) {
      var h := SomeHeadAbove(ops, id);
    }
  }

  /** The stored size of a list of operations. */
  function Bytes(os: seq<Op>): nat {
    if os == [] then 0 else Bytes(os[..|os| - 1]) + os[|os| - 1].size
  }

  lemma BytesOfLonger(os: seq<Op>, op: Op)
    ensures Bytes(os + [op]) == Bytes(os) + op.size
  {
    assert (os + [op])[..|os|] == os;
  }

  lemma {:induction false} BytesPrefix(os: seq<Op>, n: nat)
    requires n <= |os|
    ensures Bytes(os[..n]) <= Bytes(os)
  {
    if n < |os| {
      BytesPrefix(os[..|os| - 1], n);
      assert os[..|os| - 1][..n] == os[..n];
    } else {
      assert os[..n] == os;
    }
  }

  lemma {:induction false} SizeWithin(os: seq<Op>, i: nat)
    requires i < |os|
    ensures os[i].size <= Bytes(os)
  {
    if i < |os| - 1 {
      SizeWithin(os[..|os| - 1], i);
    }
  }

  // ----- Replaying operations -----

  /** Operations whose changes a replay applies; `skip` is the rejection ledger. */
  predicate Replayed(op: Op, graph: nat, skip: set<OpId>) {
    && op.payload.GraphEvent? && op.payload.graph == graph && op.payload.wellFormed
    && op.payload.body.Mutation? && op.id !in skip
  }

  function EventOf(op: Op): Event
    requires op.payload.GraphEvent? && op.payload.body.Mutation?
  {
    Event(DotOf(op), op.observed, op.payload.body.changes, op.payload.body.hints)
  }

  function EventsOf(os: seq<Op>, graph: nat, skip: set<OpId>): seq<Event> {
    if os == [] then []
    else
      var rest := EventsOf(os[..|os| - 1], graph, skip);
      var op := os[|os| - 1];
      if Replayed(op, graph, skip) then rest + [EventOf(op)] else rest
  }

  lemma EventsOfLonger(os: seq<Op>, op: Op, graph: nat, skip: set<OpId>)
    ensures EventsOf(os + [op], graph, skip) == EventsOf(os, graph, skip) + (if Replayed(op, graph, skip) then [EventOf(op)] else [])
  {
    assert (os + [op])[..|os|] == os;
  }

  function EventSet(ops: Ops, ids: set<OpId>, graph: nat, skip: set<OpId>): set<Event> {
    set id | id in ids && id in ops && Replayed(ops[id], graph, skip) :: EventOf(ops[id])
  }

  function Ids(os: seq<Op>): set<OpId> {
    set i | 0 <= i < |os| :: os[i].id
  }

  lemma IdsOfLonger(entries: seq<Op>, op: Op)
    ensures Ids(entries + [op]) == Ids(entries) + {op.id}
  {
    assert forall i :: 0 <= i < |entries| ==> (entries + [op])[i] == entries[i];
    assert (entries + [op])[|entries|] == op;
  }

  lemma IdsSplitLast(os: seq<Op>)
    requires os != []
    ensures Ids(os) == Ids(os[..|os| - 1]) + {os[|os| - 1].id}
  {
    assert os == os[..|os| - 1] + [os[|os| - 1]];
    IdsOfLonger(os[..|os| - 1], os[|os| - 1]);
  }

  /** A list of operations in which none comes before one of its past. */
  ghost predicate CausalOps(ops: Ops, os: seq<Op>)
    requires Acyclic(ops)
  {
    && (forall i :: 0 <= i < |os| ==> os[i].id in ops && ops[os[i].id] == os[i])
    && (forall i, j :: 0 <= i < j < |os| ==> !Below(ops, os[j].id, os[i].id))
  }

  lemma {:induction false} EventsAreOfOps(os: seq<Op>, graph: nat, skip: set<OpId>, e: Event)
    ensures e in EventsOf(os, graph, skip) <==> exists i :: 0 <= i < |os| && Replayed(os[i], graph, skip) && EventOf(os[i]) == e
  {
    if os != [] {
      var front := os[..|os| - 1];
      EventsAreOfOps(front, graph, skip, e);
      assert forall i :: 0 <= i < |front| ==> front[i] == os[i];
      if i :| 0 <= i < |os| && Replayed(os[i], graph, skip) && EventOf(os[i]) == e {
        assert i < |front| ==> front[i] == os[i];
      }
    }
  }

  lemma {:induction false} EventsStayCausal(ops: Ops, os: seq<Op>, graph: nat, skip: set<OpId>)
    requires WellFormed(ops) && CausalOps(ops, os)
    ensures DistinctDots(EventsOf(os, graph, skip)) && Causal(EventsOf(os, graph, skip))
  {
    if os != [] {
      var n := |os| - 1;
      var front, op := os[..n], os[n];
      assert forall i :: 0 <= i < n ==> front[i] == os[i];
      EventsStayCausal(ops, front, graph, skip);
      var es := EventsOf(front, graph, skip);
      if Replayed(op, graph, skip) {
        forall i | 0 <= i < |es| ensures es[i].dot != DotOf(op) && !Contains(es[i].base, DotOf(op)) {
          EventsAreOfOps(front, graph, skip, es[i]);
          var k :| 0 <= k < |front| && Replayed(front[k], graph, skip) && EventOf(front[k]) == es[i];
          assert !Below(ops, op.id, os[k].id);
          assert op.id != os[k].id;
        }
      }
    }
  }

  lemma EventsAreTheSet(ops: Ops, os: seq<Op>, graph: nat, skip: set<OpId>)
    requires forall i :: 0 <= i < |os| ==> os[i].id in ops && ops[os[i].id] == os[i]
    ensures ToSet(EventsOf(os, graph, skip)) == EventSet(ops, Ids(os), graph, skip)
  {
    forall e ensures e in ToSet(EventsOf(os, graph, skip)) <==> e in EventSet(ops, Ids(os), graph, skip) {
      EventsAreOfOps(os, graph, skip, e);
      if e in EventSet(ops, Ids(os), graph, skip) {
        var id :| id in Ids(os) && id in ops && Replayed(ops[id], graph, skip) && EventOf(ops[id]) == e;
        var i :| 0 <= i < |os| && os[i].id == id;
        assert Replayed(os[i], graph, skip) && EventOf(os[i]) == e;
      }
    }
  }

  /** Replaying operations in any causal order gives the meaning of their set. */
  lemma CausalOpsReplay(ops: Ops, os: seq<Op>, graph: nat, skip: set<OpId>)
    requires WellFormed(ops) && CausalOps(ops, os)
    ensures Replay(EventsOf(os, graph, skip)) == Meaning(EventSet(ops, Ids(os), graph, skip))
  {
    EventsStayCausal(ops, os, graph, skip);
    EventsAreTheSet(ops, os, graph, skip);
    CausalReplay(EventsOf(os, graph, skip));
  }

  /** Lists sorted by generation are causal, whatever breaks their ties. */
  lemma SortedIsCausal(ops: Ops, os: seq<Op>)
    requires Acyclic(ops)
    requires forall i :: 0 <= i < |os| ==> os[i].id in ops && ops[os[i].id] == os[i]
    requires forall i, j :: 0 <= i < j < |os| ==> os[i].generation <= os[j].generation && os[i].id != os[j].id
    ensures CausalOps(ops, os)
  {
    forall i, j | 0 <= i < j < |os| ensures !Below(ops, os[j].id, os[i].id) {
      if Below(ops, os[j].id, os[i].id) {
        BelowIsOlder(ops, os[j].id, os[i].id);
      }
    }
  }
}

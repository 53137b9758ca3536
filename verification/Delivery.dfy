/**
 `topic_records_since`: a merge of the actors' logs, cut into pages. A cursor
 holds the consumed clock and, between pages, the clock the pass is heading for.
 */
module Delivery {
  import opened Wrappers
  import opened Clocks
  import opened Topics
  import opened Listings

  const PAGE_RECORDS: nat := 1024
  const PAGE_BYTES: nat := 8 * 1024 * 1024

  /** What the topic holds now; `clock` is the last position of each actor. */
  datatype View = View(ops: Ops, clock: Clock, epoch: nat, genesis: OpId)

  datatype Cursor = Cursor(epoch: nat, genesis: OpId, clock: Clock, target: Option<Clock>)

  datatype Catchup = Catchup(records: seq<Op>, cursor: Cursor, more: bool)

  datatype DeliveryError = Expired | Capacity

  /** The order of `RecordCandidate`: generation, actor, sequence, id. */
  predicate Before(a: Op, b: Op) {
    a.generation < b.generation
    || (a.generation == b.generation && (
          a.actor < b.actor
          || (a.actor == b.actor && (
                a.seq_ < b.seq_
                || (a.seq_ == b.seq_ && a.id < b.id)))))
  }

  lemma BeforeIsStrict()
    ensures StrictOrder(Before)
  {
  }

  /** What a cursor has still to deliver on the way to a target. */
  function Pending(ops: Ops, clock: Clock, target: Clock): set<Op> {
    set id | id in ops && Get(clock, ops[id].actor) < ops[id].seq_ <= Get(target, ops[id].actor) :: ops[id]
  }

  /** `TopicCursor::consume`, record by record. */
  function Consume(clock: Clock, records: seq<Op>): Clock {
    if records == [] then clock
    else
      var last := records[|records| - 1];
      Observe(Consume(clock, records[..|records| - 1]), last.actor, last.seq_)
  }

  ghost predicate HoldsPosition(ops: Ops, actor: Actor, position: nat) {
    exists id :: id in ops && DotOf(ops[id]) == Dot(actor, position)
  }

  /** Every actor with something left has an operation at its target position. */
  ghost predicate TargetExists(ops: Ops, clock: Clock, target: Clock) {
    forall a: Actor {:trigger HoldsPosition(ops, a, Get(target, a))} ::
      Get(clock, a) < Get(target, a) ==> HoldsPosition(ops, a, Get(target, a))
  }

  ghost predicate Least(all: set<Op>, m: Op) {
    m in all && forall x :: x in all ==> x == m || Before(m, x)
  }

  /** Consuming the least pending record covers that record and no other. */
  lemma ConsumeLeast(ops: Ops, clock: Clock, target: Clock, m: Op)
    requires WellFormed(ops) && Least(Pending(ops, clock, target), m)
    ensures Pending(ops, Observe(clock, m.actor, m.seq_), target) == Pending(ops, clock, target) - {m}
    ensures Covered(ops, Observe(clock, m.actor, m.seq_)) == Covered(ops, clock) + {m.id}
  {
    forall id | id in ops && ops[id].actor == m.actor && Get(clock, m.actor) < ops[id].seq_ <= m.seq_
      ensures ops[id] == m
    {
      assert ops[id] in Pending(ops, clock, target);
      if ops[id].seq_ < m.seq_ {
        ActorChain(ops, id, m.id);
      } else {
        assert DotOf(ops[id]) == DotOf(ops[m.id]);
      }
    }
  }

  lemma LastIsLeast(all: set<Op>, records: seq<Op>)
    requires LeadingPart(Before, all, records) && records != []
    ensures Least(all - Elements(records[..|records| - 1]), records[|records| - 1])
  {
    var n := |records| - 1;
    var front, last := records[..n], records[n];
    assert records == front + [last];
    assert last in Elements(records);
    BeforeIsStrict();
    forall x | x in all - Elements(front) ensures x == last || Before(last, x) {
    }
  }

  lemma {:induction false} ConsumeLeading(ops: Ops, clock: Clock, target: Clock, records: seq<Op>)
    requires WellFormed(ops) && LeadingPart(Before, Pending(ops, clock, target), records)
    ensures Pending(ops, Consume(clock, records), target) == Pending(ops, clock, target) - Elements(records)
    ensures Covered(ops, Consume(clock, records)) == Covered(ops, clock) + Ids(records)
  {
    if records != [] {
      var n := |records| - 1;
      var front, last := records[..n], records[n];
      LeadingPartPrefix(Before, Pending(ops, clock, target), records, n);
      ConsumeLeading(ops, clock, target, front);
      LastIsLeast(Pending(ops, clock, target), records);
      ConsumeLeast(ops, Consume(clock, front), target, last);
      ElementsSplitLast(records);
      IdsSplitLast(records);
    }
  }

  // ----- Causal delivery -----

  /** Before each record of a pass is consumed, everything it depends on already is. */
  lemma CausalDelivery(ops: Ops, clock: Clock, target: Clock, records: seq<Op>, n: nat)
    requires WellFormed(ops) && Closed(ops, Covered(ops, clock)) && Closed(ops, Covered(ops, target))
    requires LeadingPart(Before, Pending(ops, clock, target), records) && n < |records|
    ensures records[n].deps <= Covered(ops, Consume(clock, records[..n]))
  {
    var all := Pending(ops, clock, target);
    LeadingPartPrefix(Before, all, records, n + 1);
    LeadingPartPrefix(Before, all, records, n);
    var upto, front, m := records[..n + 1], records[..n], records[n];
    assert upto[..n] == front && upto[n] == m;
    LastIsLeast(all, upto);
    ConsumeLeading(ops, clock, target, front);
    assert m in Elements(records);
    forall d | d in m.deps ensures d in Covered(ops, Consume(clock, front)) {
      assert m.id in Covered(ops, target);
      assert ops[d].generation < m.generation && ops[d] !in Pending(ops, Consume(clock, front), target);
    }
  }

  lemma CoveredStep(ops: Ops, clock: Clock, target: Clock, records: seq<Op>, n: nat)
    requires WellFormed(ops) && LeadingPart(Before, Pending(ops, clock, target), records) && n < |records|
    ensures records[n].id in ops && ops[records[n].id] == records[n]
    ensures Covered(ops, Consume(clock, records[..n + 1])) == Covered(ops, Consume(clock, records[..n])) + {records[n].id}
  {
    var all := Pending(ops, clock, target);
    var upto, front := records[..n + 1], records[..n];
    LeadingPartPrefix(Before, all, records, n + 1);
    LeadingPartPrefix(Before, all, records, n);
    PrefixSplitsLast(records, n);
    IdsSplitLast(upto);
    ConsumeLeading(ops, clock, target, upto);
    ConsumeLeading(ops, clock, target, front);
    assert records[n] in Elements(records);
  }

  /** The set a cursor denotes stays causally closed after every consumed record. */
  lemma {:induction false} CursorStaysClosed(ops: Ops, clock: Clock, target: Clock, records: seq<Op>, n: nat)
    requires WellFormed(ops) && Closed(ops, Covered(ops, clock)) && Closed(ops, Covered(ops, target))
    requires LeadingPart(Before, Pending(ops, clock, target), records) && n <= |records|
    ensures Closed(ops, Covered(ops, Consume(clock, records[..n])))
  {
    if n > 0 {
      CursorStaysClosed(ops, clock, target, records, n - 1);
      CausalDelivery(ops, clock, target, records, n - 1);
      CoveredStep(ops, clock, target, records, n - 1);
    }
  }

  /** Once nothing is pending, the consumed clock is the target. */
  lemma DoneIsTarget(ops: Ops, clock: Clock, target: Clock, records: seq<Op>)
    requires WellFormed(ops) && Leq(clock, target) && TargetExists(ops, clock, target)
    requires LeadingPart(Before, Pending(ops, clock, target), records)
    ensures Pending(ops, Consume(clock, records), target) == {} <==> forall a: Actor :: Get(Consume(clock, records), a) == Get(target, a)
  {
    var after := Consume(clock, records);
    ConsumeBounds(clock, target, records, Pending(ops, clock, target));
    if Pending(ops, after, target) == {} {
      forall a: Actor ensures Get(after, a) == Get(target, a) {
        if Get(clock, a) < Get(target, a) {
          assert HoldsPosition(ops, a, Get(target, a));
          var id :| id in ops && DotOf(ops[id]) == Dot(a, Get(target, a));
          assert ops[id] !in Pending(ops, after, target);
        }
      }
    }
  }

  lemma {:induction false} ConsumeGrows(clock: Clock, records: seq<Op>)
    ensures Leq(clock, Consume(clock, records))
  {
    if records != [] {
      ConsumeGrows(clock, records[..|records| - 1]);
    }
  }

  lemma {:induction false} ConsumeBounds(clock: Clock, target: Clock, records: seq<Op>, all: set<Op>)
    requires Leq(clock, target) && forall x :: x in records ==> x in all
    requires forall x :: x in all ==> x.seq_ <= Get(target, x.actor)
    ensures Leq(clock, Consume(clock, records)) && Leq(Consume(clock, records), target)
  {
    if records != [] {
      ConsumeBounds(clock, target, records[..|records| - 1], all);
    }
  }

  lemma DeliveredIsCausal(ops: Ops, records: seq<Op>)
    requires Acyclic(ops) && Sorted(Before, records)
    requires forall i :: 0 <= i < |records| ==> records[i].id in ops && ops[records[i].id] == records[i]
    ensures CausalOps(ops, records)
  {
    forall i, j | 0 <= i < j < |records| ensures records[i].generation <= records[j].generation && records[i].id != records[j].id {
      assert Before(records[i], records[j]);
    }
    SortedIsCausal(ops, records);
  }

  // ----- Paging is invisible -----

  /** Pages consumed one after another under one target. */
  ghost predicate Paged(ops: Ops, clock: Clock, target: Clock, pages: seq<seq<Op>>)
    decreases |pages|
  {
    pages != [] ==>
      && LeadingPart(Before, Pending(ops, clock, target), pages[0])
      && Paged(ops, Consume(clock, pages[0]), target, pages[1..])
  }

  function Joined(pages: seq<seq<Op>>): seq<Op> {
    if pages == [] then [] else pages[0] + Joined(pages[1..])
  }

  lemma {:induction false} ConsumeJoin(clock: Clock, a: seq<Op>, b: seq<Op>)
    ensures Consume(clock, a + b) == Consume(Consume(clock, a), b)
  {
    if b == [] {
      assert a + b == a;
    } else {
      var n := |b| - 1;
      ConsumeJoin(clock, a, b[..n]);
      assert (a + b)[..|a + b| - 1] == a + b[..n];
      assert (a + b)[|a + b| - 1] == b[n];
    }
  }

  /** However a pass is cut into pages, it delivers a leading part of the one sorted merge. */
  lemma {:induction false} PagingIsInvisible(ops: Ops, clock: Clock, target: Clock, pages: seq<seq<Op>>)
    requires WellFormed(ops) && Paged(ops, clock, target, pages)
    ensures LeadingPart(Before, Pending(ops, clock, target), Joined(pages))
    decreases |pages|
  {
    if pages != [] {
      ConsumeLeading(ops, clock, target, pages[0]);
      PagingIsInvisible(ops, Consume(clock, pages[0]), target, pages[1..]);
      LeadingPartsJoin(Before, Pending(ops, clock, target), pages[0], Joined(pages[1..]));
    }
  }

  /** Two complete passes deliver the same records in the same order, wherever their pages end. */
  lemma CompletePassesAgree(ops: Ops, clock: Clock, target: Clock, left: seq<seq<Op>>, right: seq<seq<Op>>)
    requires WellFormed(ops) && Paged(ops, clock, target, left) && Paged(ops, clock, target, right)
    requires Pending(ops, Consume(clock, Joined(left)), target) == {}
    requires Pending(ops, Consume(clock, Joined(right)), target) == {}
    ensures Joined(left) == Joined(right)
    ensures Elements(Joined(left)) == Pending(ops, clock, target)
    ensures |Joined(left)| == |Pending(ops, clock, target)|
  {
    var all := Pending(ops, clock, target);
    PagingIsInvisible(ops, clock, target, left);
    PagingIsInvisible(ops, clock, target, right);
    WholeWhenNothingPending(ops, clock, target, Joined(left));
    WholeWhenNothingPending(ops, clock, target, Joined(right));
    BeforeIsStrict();
    SortedCount(Before, Joined(left));
    SortedCount(Before, Joined(right));
    LeadingPartUnique(Before, all, Joined(left), Joined(right));
  }

  lemma WholeWhenNothingPending(ops: Ops, clock: Clock, target: Clock, records: seq<Op>)
    requires WellFormed(ops) && LeadingPart(Before, Pending(ops, clock, target), records)
    requires Pending(ops, Consume(clock, records), target) == {}
    ensures Elements(records) == Pending(ops, clock, target)
  {
    ConsumeLeading(ops, clock, target, records);
    assert forall x :: x in Pending(ops, clock, target) ==> x !in Pending(ops, clock, target) - Elements(records);
  }

  // ----- Reading one page -----

  predicate IsAfter(ops: Ops, actor: Actor, after: nat, id: OpId) {
    id in ops && ops[id].actor == actor && ops[id].seq_ > after
  }

  /** The actor's first operation after a position, if it has one. */
  method NextRecord(ops: Ops, actor: Actor, after: nat) returns (r: Option<Op>)
    requires Acyclic(ops)
    ensures r.None? <==> forall id :: !IsAfter(ops, actor, after, id)
    ensures r.Some? ==> IsAfter(ops, actor, after, r.value.id) && ops[r.value.id] == r.value
    ensures r.Some? ==> forall id :: IsAfter(ops, actor, after, id) ==> r.value.seq_ <= ops[id].seq_
  {
    var later := set id | id in ops && IsAfter(ops, actor, after, id);
    if later == {} {
      assert forall id :: IsAfter(ops, actor, after, id) ==> id in later;
      return None;
    }
    var best :| best in later;
    var left := later - {best};
    while left != {}
      invariant best in later && left <= later
      invariant forall id :: id in later - left ==> ops[best].seq_ <= ops[id].seq_
    {
      var id :| id in left;
      left := left - {id};
      if ops[id].seq_ < ops[best].seq_ {
        best := id;
      }
    }
    return Some(ops[best]);
  }

  /** Some candidate of the record's actor is at or before it. */
  ghost predicate HasFront(candidates: seq<Op>, x: Op) {
    exists i :: 0 <= i < |candidates| && candidates[i].actor == x.actor && candidates[i].seq_ <= x.seq_
  }

  ghost predicate Fronted(left: set<Op>, candidates: seq<Op>) {
    forall x {:trigger HasFront(candidates, x)} :: x in left ==> HasFront(candidates, x)
  }

  ghost predicate DistinctActors(candidates: seq<Op>) {
    forall i, j :: 0 <= i < j < |candidates| ==> candidates[i].actor != candidates[j].actor
  }

  /** Where the merge stands: the records taken, and one candidate for each actor with records left. */
  ghost predicate Merging(ops: Ops, clock: Clock, target: Clock, records: seq<Op>, candidates: seq<Op>) {
    && LeadingPart(Before, Pending(ops, clock, target), records)
    && (forall i :: 0 <= i < |candidates| ==> candidates[i] in Pending(ops, Consume(clock, records), target))
    && DistinctActors(candidates)
    && Fronted(Pending(ops, Consume(clock, records), target), candidates)
  }

  predicate Fits(op: Op, used: nat) {
    op.size + used <= PAGE_BYTES
  }

  lemma CandidateIsLeast(ops: Ops, left: set<Op>, candidates: seq<Op>, k: nat)
    requires WellFormed(ops) && k < |candidates| && Fronted(left, candidates)
    requires forall x :: x in left ==> x.id in ops && ops[x.id] == x
    requires forall i :: 0 <= i < |candidates| ==> candidates[i] in left
    requires forall i :: 0 <= i < |candidates| ==> candidates[i] == candidates[k] || Before(candidates[k], candidates[i])
    ensures Least(left, candidates[k])
  {
    forall x | x in left ensures x == candidates[k] || Before(candidates[k], x) {
      assert HasFront(candidates, x);
      var i :| 0 <= i < |candidates| && candidates[i].actor == x.actor && candidates[i].seq_ <= x.seq_;
      var c := candidates[i];
      if c.seq_ < x.seq_ {
        ActorChain(ops, c.id, x.id);
        assert Before(c, x);
      } else {
        assert DotOf(ops[c.id]) == DotOf(ops[x.id]);
      }
    }
  }

  /** `Vec::swap_remove`. */
  function SwapRemove(s: seq<Op>, k: nat): seq<Op>
    requires k < |s|
  {
    s[..|s| - 1][..k] + (if k < |s| - 1 then [s[|s| - 1]] + s[..|s| - 1][k + 1..] else [])
  }

  lemma SwapRemoveKeeps(s: seq<Op>, k: nat)
    requires k < |s| && DistinctActors(s)
    ensures DistinctActors(SwapRemove(s, k))
    ensures forall x :: x in s <==> x == s[k] || x in SwapRemove(s, k)
    ensures forall x :: x in SwapRemove(s, k) ==> x.actor != s[k].actor
  {
    var n := |s| - 1;
    var r := SwapRemove(s, k);
    assert |r| == n && forall i :: 0 <= i < n ==> r[i] == if i == k then s[n] else s[i];
    forall x | x in s && x != s[k] ensures x in r {
      var i :| 0 <= i < |s| && s[i] == x;
      assert r[if i == n then k else i] == x;
    }
  }

  /** Taking the least candidate, and refilling its actor, keeps the merge going. */
  lemma MergeStep(ops: Ops, clock: Clock, target: Clock, records: seq<Op>, candidates: seq<Op>, m: Op, rest: seq<Op>, refill: seq<Op>)
    requires WellFormed(ops) && Merging(ops, clock, target, records, candidates)
    requires Least(Pending(ops, Consume(clock, records), target), m)
    requires DistinctActors(rest) && forall x :: x in rest ==> x in candidates && x.actor != m.actor
    requires forall x :: x in candidates ==> x == m || x in rest
    requires |refill| <= 1
    requires refill == [] ==> m.seq_ >= Get(target, m.actor)
    requires refill != [] ==>
               && IsAfter(ops, m.actor, m.seq_, refill[0].id) && ops[refill[0].id] == refill[0]
               && refill[0].seq_ <= Get(target, m.actor)
               && forall id :: IsAfter(ops, m.actor, m.seq_, id) ==> refill[0].seq_ <= ops[id].seq_
    ensures Merging(ops, clock, target, records + [m], rest + refill)
  {
    var after := Consume(clock, records);
    ConsumeLeading(ops, clock, target, records);
    ConsumeLeast(ops, after, target, m);
    MergedRecord(Pending(ops, clock, target), records, m);
    ConsumeLonger(clock, records, m);
    AfterLeast(ops, after, target, m);
    FrontKept(ops, Pending(ops, after, target), candidates, m, rest, refill, Get(target, m.actor));
    StillDistinct(m.actor, rest, refill);
  }

  lemma StillDistinct(actor: Actor, rest: seq<Op>, refill: seq<Op>)
    requires DistinctActors(rest) && |refill| <= 1
    requires forall x :: x in rest ==> x.actor != actor
    requires refill != [] ==> refill[0].actor == actor
    ensures DistinctActors(rest + refill)
  {
    var longer := rest + refill;
    forall i, j | 0 <= i < j < |longer| ensures longer[i].actor != longer[j].actor {
      assert longer[i] in rest;
    }
  }

  lemma FrontKept(ops: Ops, left: set<Op>, candidates: seq<Op>, m: Op, rest: seq<Op>, refill: seq<Op>, limit: nat)
    requires Fronted(left, candidates) && (forall i :: 0 <= i < |candidates| ==> candidates[i] in left)
    requires forall x :: x in left ==> x.id in ops && ops[x.id] == x
    requires forall x :: x in left && x.actor == m.actor ==> x.seq_ <= limit
    requires forall x :: x in left && x.actor == m.actor && x != m ==> m.seq_ < x.seq_
    requires forall x :: x in rest ==> x in candidates && x.actor != m.actor
    requires forall x :: x in candidates ==> x == m || x in rest
    requires |refill| <= 1 && (refill == [] ==> m.seq_ >= limit)
    requires refill != [] ==> refill[0] in left - {m}
    requires refill != [] ==> forall id :: IsAfter(ops, m.actor, m.seq_, id) ==> refill[0].seq_ <= ops[id].seq_
    requires refill != [] ==> refill[0].actor == m.actor
    ensures Fronted(left - {m}, rest + refill)
    ensures forall i :: 0 <= i < |rest + refill| ==> (rest + refill)[i] in left - {m}
  {
    var longer := rest + refill;
    forall x | x in left - {m} ensures HasFront(longer, x) {
      if x.actor == m.actor {
        assert IsAfter(ops, m.actor, m.seq_, x.id);
        assert longer[|rest|] == refill[0];
      } else {
        assert HasFront(candidates, x);
        var i :| 0 <= i < |candidates| && candidates[i].actor == x.actor && candidates[i].seq_ <= x.seq_;
        assert candidates[i] in candidates && candidates[i] in rest;
        var j :| 0 <= j < |rest| && rest[j] == candidates[i];
        assert longer[j] == rest[j];
      }
    }
    forall i | 0 <= i < |longer| ensures longer[i] in left - {m} {
      if i < |rest| {
        assert longer[i] in rest;
      }
    }
  }

  lemma ConsumeLonger(clock: Clock, records: seq<Op>, m: Op)
    ensures Consume(clock, records + [m]) == Observe(Consume(clock, records), m.actor, m.seq_)
  {
    assert (records + [m])[..|records|] == records;
  }

  lemma AfterLeast(ops: Ops, clock: Clock, target: Clock, m: Op)
    requires WellFormed(ops) && Least(Pending(ops, clock, target), m)
    ensures forall x :: x in Pending(ops, clock, target) && x.actor == m.actor && x != m ==> m.seq_ < x.seq_
  {
    ConsumeLeast(ops, clock, target, m);
    forall x | x in Pending(ops, clock, target) && x.actor == m.actor && x != m ensures m.seq_ < x.seq_ {
      assert x in Pending(ops, Observe(clock, m.actor, m.seq_), target);
    }
  }

  lemma MergedRecord(all: set<Op>, records: seq<Op>, m: Op)
    requires LeadingPart(Before, all, records) && Least(all - Elements(records), m)
    ensures LeadingPart(Before, all, records + [m])
  {
    assert LeadingPart(Before, all - Elements(records), [m]);
    LeadingPartsJoin(Before, all, records, [m]);
  }

  method LeastCandidate(ghost ops: Ops, candidates: seq<Op>) returns (k: nat)
    requires candidates != []
    requires forall i :: 0 <= i < |candidates| ==> candidates[i].id in ops && ops[candidates[i].id] == candidates[i]
    ensures k < |candidates|
    ensures forall i :: 0 <= i < |candidates| ==> candidates[i] == candidates[k] || Before(candidates[k], candidates[i])
  {
    k := 0;
    for n := 1 to |candidates|
      invariant k < |candidates|
      invariant forall i :: 0 <= i < n ==> candidates[i] == candidates[k] || Before(candidates[k], candidates[i])
    {
      if Before(candidates[n], candidates[k]) {
        k := n;
      }
    }
  }

  /** The first candidate of every actor with something pending, or `None` when a position is missing. */
  method FirstCandidates(ops: Ops, clock: Clock, target: Clock) returns (r: Option<seq<Op>>)
    requires WellFormed(ops)
    ensures r.Some? ==> Merging(ops, clock, target, [], r.value)
    ensures TargetExists(ops, clock, target) ==> r.Some?
  {
    var candidates: seq<Op> := [];
    var left := target.Keys;
    ghost var all := Pending(ops, clock, target);
    while left != {}
      invariant left <= target.Keys
      invariant forall i :: 0 <= i < |candidates| ==> candidates[i] in all && candidates[i].actor !in left
      invariant DistinctActors(candidates)
      invariant forall x {:trigger HasFront(candidates, x)} :: x in all && x.actor !in left ==> HasFront(candidates, x)
    {
      var actor :| actor in left;
      left := left - {actor};
      if Get(clock, actor) < Get(target, actor) {
        var next := NextRecord(ops, actor, Get(clock, actor));
        if next.None? || next.value.seq_ > Get(target, actor) {
          MissingPosition(ops, clock, target, actor, next);
          return None;
        }
        CandidateAdded(ops, clock, target, candidates, left, next.value);
        candidates := candidates + [next.value];
      }
    }
    return Some(candidates);
  }

  lemma MissingPosition(ops: Ops, clock: Clock, target: Clock, actor: Actor, next: Option<Op>)
    requires Get(clock, actor) < Get(target, actor)
    requires next.None? ==> forall id :: !IsAfter(ops, actor, Get(clock, actor), id)
    requires next.Some? ==> next.value.seq_ > Get(target, actor)
    requires next.Some? ==> forall id :: IsAfter(ops, actor, Get(clock, actor), id) ==> next.value.seq_ <= ops[id].seq_
    ensures !TargetExists(ops, clock, target)
  {
    forall id | id in ops ensures DotOf(ops[id]) != Dot(actor, Get(target, actor)) {
      assert !IsAfter(ops, actor, Get(clock, actor), id) || ops[id].seq_ > Get(target, actor);
    }
    assert !HoldsPosition(ops, actor, Get(target, actor));
  }

  lemma CandidateAdded(ops: Ops, clock: Clock, target: Clock, candidates: seq<Op>, left: set<Actor>, next: Op)
    requires forall x {:trigger HasFront(candidates, x)} ::
               x in Pending(ops, clock, target) && x.actor !in left + {next.actor} ==> HasFront(candidates, x)
    requires Acyclic(ops)
    requires forall id :: IsAfter(ops, next.actor, Get(clock, next.actor), id) ==> next.seq_ <= ops[id].seq_
    ensures forall x {:trigger HasFront(candidates + [next], x)} ::
              x in Pending(ops, clock, target) && x.actor !in left ==> HasFront(candidates + [next], x)
  {
    var longer := candidates + [next];
    forall x | x in Pending(ops, clock, target) && x.actor !in left ensures HasFront(longer, x) {
      if x.actor == next.actor {
        assert IsAfter(ops, next.actor, Get(clock, next.actor), x.id);
        assert longer[|candidates|] == next;
      } else {
        assert HasFront(candidates, x);
        var i :| 0 <= i < |candidates| && candidates[i].actor == x.actor && candidates[i].seq_ <= x.seq_;
        assert longer[i] == candidates[i];
      }
    }
  }

  datatype MergeEnd = Complete | Missing | TooLarge

  /** Nothing more fits the page, or nothing is left. */
  ghost predicate PageIsFull(left: set<Op>, records: seq<Op>) {
    left != {} ==> |records| == PAGE_RECORDS || (records != [] && exists m :: Least(left, m) && !Fits(m, Bytes(records)))
  }

  method MergePage(ops: Ops, clock: Clock, target: Clock, first: seq<Op>)
    returns (records: seq<Op>, candidates: seq<Op>, end: MergeEnd)
    requires WellFormed(ops) && Merging(ops, clock, target, [], first)
    ensures end.Complete? ==>
              && Merging(ops, clock, target, records, candidates)
              && |records| <= PAGE_RECORDS && Bytes(records) <= PAGE_BYTES
              && PageIsFull(Pending(ops, Consume(clock, records), target), records)
    ensures end.Missing? ==> !TargetExists(ops, clock, target)
    ensures end.TooLarge? ==> exists m :: Least(Pending(ops, clock, target), m) && m.size > PAGE_BYTES
  {
    records, candidates, end := [], first, Complete;
    var used := 0;
    while |records| < PAGE_RECORDS && candidates != []
      invariant Merging(ops, clock, target, records, candidates)
      invariant |records| <= PAGE_RECORDS && used == Bytes(records) <= PAGE_BYTES
      decreases PAGE_RECORDS - |records|
    {
      FromOps(ops, Consume(clock, records), target, candidates);
      var k := LeastCandidate(ops, candidates);
      var m := candidates[k];
      CandidateIsLeast(ops, Pending(ops, Consume(clock, records), target), candidates, k);
      if !Fits(m, used) {
        if records != [] {
          return;
        }
        end := TooLarge;
        return;
      }
      var rest := SwapRemove(candidates, k);
      SwapRemoveKeeps(candidates, k);
      var refill: seq<Op> := [];
      if m.seq_ < Get(target, m.actor) {
        var next := NextRecord(ops, m.actor, m.seq_);
        if next.None? || next.value.seq_ > Get(target, m.actor) {
          ConsumeGrows(clock, records);
          MissingLater(ops, clock, target, records, m, next);
          end := Missing;
          return;
        }
        refill := [next.value];
      }
      MergeStep(ops, clock, target, records, candidates, m, rest, refill);
      BytesOfLonger(records, m);
      used := used + m.size;
      records := records + [m];
      candidates := rest + refill;
    }
    NoCandidates(Pending(ops, Consume(clock, records), target), candidates);
  }

  lemma FromOps(ops: Ops, clock: Clock, target: Clock, candidates: seq<Op>)
    requires Acyclic(ops) && forall i :: 0 <= i < |candidates| ==> candidates[i] in Pending(ops, clock, target)
    ensures forall i :: 0 <= i < |candidates| ==> candidates[i].id in ops && ops[candidates[i].id] == candidates[i]
    ensures forall x :: x in Pending(ops, clock, target) ==> x.id in ops && ops[x.id] == x
  {
  }

  lemma NoCandidates(left: set<Op>, candidates: seq<Op>)
    requires Fronted(left, candidates) && forall i :: 0 <= i < |candidates| ==> candidates[i] in left
    ensures left == {} <==> candidates == []
  {
    assert candidates != [] ==> candidates[0] in left;
    if left != {} {
      var x :| x in left;
      assert HasFront(candidates, x);
    }
  }

  lemma MissingLater(ops: Ops, clock: Clock, target: Clock, records: seq<Op>, m: Op, next: Option<Op>)
    requires Acyclic(ops) && m in Pending(ops, Consume(clock, records), target) && m.seq_ < Get(target, m.actor)
    requires Get(clock, m.actor) <= Get(Consume(clock, records), m.actor)
    requires next.None? ==> forall id :: !IsAfter(ops, m.actor, m.seq_, id)
    requires next.Some? ==> next.value.seq_ > Get(target, m.actor)
    requires next.Some? ==> forall id :: IsAfter(ops, m.actor, m.seq_, id) ==> next.value.seq_ <= ops[id].seq_
    ensures !TargetExists(ops, clock, target)
  {
    forall id | id in ops ensures DotOf(ops[id]) != Dot(m.actor, Get(target, m.actor)) {
      assert !IsAfter(ops, m.actor, m.seq_, id) || ops[id].seq_ > Get(target, m.actor);
    }
    assert !HoldsPosition(ops, m.actor, Get(target, m.actor));
  }

  /** The view's clock stands at the last operation of each actor. */
  ghost predicate ValidView(view: View) {
    && WellFormed(view.ops)
    && Covered(view.ops, view.clock) == view.ops.Keys
    && TargetExists(view.ops, map[], view.clock)
  }

  /** What a stored cursor has consumed. */
  function CursorClock(cursor: Option<Cursor>): Clock {
    if cursor.Some? then cursor.value.clock else map[]
  }

  /** The own position a store accounts for: the graph clock's, or the cursor's where that is further. */
  function Furthest(applied: nat, cursor: Option<Cursor>, local: Actor): nat {
    var consumed := Get(CursorClock(cursor), local);
    if applied < consumed then consumed else applied
  }

  /** The branch, clock and target a cursor gives a pass over the current view. */
  function Resume(view: View, cursor: Option<Cursor>): Cursor {
    if cursor.Some? then cursor.value else Cursor(view.epoch, view.genesis, map[], None)
  }

  function TargetOf(view: View, state: Cursor): Clock {
    if state.target.Some? then state.target.value else view.clock
  }

  predicate OnBranch(view: View, state: Cursor) {
    state.epoch == view.epoch && state.genesis == view.genesis
  }

  predicate Within(clock: Clock, target: Clock) {
    forall a :: a in clock ==> clock[a] <= Get(target, a)
  }

  /** The clock has not passed the target, and nothing on the way there is missing. */
  ghost predicate OnTheWay(ops: Ops, clock: Clock, target: Clock) {
    Within(clock, target) && TargetExists(ops, clock, target)
  }

  /** Nothing on the way to the target is larger than a page either. */
  ghost predicate Readable(ops: Ops, clock: Clock, target: Clock) {
    OnTheWay(ops, clock, target) && forall x :: x in Pending(ops, clock, target) ==> x.size <= PAGE_BYTES
  }

  lemma StaysOnTheWay(ops: Ops, clock: Clock, target: Clock, records: seq<Op>)
    requires OnTheWay(ops, clock, target) && LeadingPart(Before, Pending(ops, clock, target), records)
    ensures OnTheWay(ops, Consume(clock, records), target)
  {
    assert forall x :: x in records ==> x in Elements(records);
    ConsumeBounds(clock, target, records, Pending(ops, clock, target));
    var after := Consume(clock, records);
    assert Within(after, target) by {
      assert forall a :: a in after ==> after[a] == Get(after, a);
    }
    assert forall a: Actor :: Get(clock, a) <= Get(after, a);
  }

  /** What can be read to the end can be read on from any point of the pass. */
  lemma ReadableOn(ops: Ops, clock: Clock, target: Clock, records: seq<Op>, n: nat)
    requires WellFormed(ops) && Readable(ops, clock, target)
    requires LeadingPart(Before, Pending(ops, clock, target), records) && n <= |records|
    ensures Readable(ops, Consume(clock, records[..n]), target)
  {
    LeadingPartPrefix(Before, Pending(ops, clock, target), records, n);
    StaysOnTheWay(ops, clock, target, records[..n]);
    ConsumeLeading(ops, clock, target, records[..n]);
  }

  /** At the end of a readable pass the clock stands at the target. */
  lemma ReadToTheEnd(ops: Ops, clock: Clock, target: Clock)
    requires WellFormed(ops) && OnTheWay(ops, clock, target)
    ensures Pending(ops, clock, target) == {} <==> forall a: Actor :: Get(clock, a) == Get(target, a)
  {
    assert Consume(clock, []) == clock;
    DoneIsTarget(ops, clock, target, []);
  }

  /** A page read after others goes on with the same listing. */
  lemma PagesJoin(ops: Ops, clock: Clock, target: Clock, done: seq<Op>, page: seq<Op>)
    requires WellFormed(ops) && LeadingPart(Before, Pending(ops, clock, target), done)
    requires LeadingPart(Before, Pending(ops, Consume(clock, done), target), page)
    ensures LeadingPart(Before, Pending(ops, clock, target), done + page)
    ensures Consume(clock, done + page) == Consume(Consume(clock, done), page)
  {
    ConsumeLeading(ops, clock, target, done);
    LeadingPartsJoin(Before, Pending(ops, clock, target), done, page);
    ConsumeJoin(clock, done, page);
  }

  /**
   What reading on from a cursor towards a target gives. The records are a leading
   part of the sorted merge of everything between the two; `more` says whether
   anything is left, and while it is the cursor keeps the target. Only a fenced
   branch, progress past the target, a missing position or a first record larger
   than a whole page fail.
   */
  ghost predicate Catches(view: View, state: Cursor, target: Clock, r: Result<Catchup, DeliveryError>) {
    var all := Pending(view.ops, state.clock, target);
    && (!OnBranch(view, state) || !Within(state.clock, target) ==> r == Err(Expired))
    && (OnBranch(view, state) && OnTheWay(view.ops, state.clock, target) ==> r != Err(Expired))
    && (r == Err(Capacity) ==> exists m :: Least(all, m) && m.size > PAGE_BYTES)
    && (r.Ok? ==>
          && LeadingPart(Before, all, r.value.records)
          && (r.value.more <==> Pending(view.ops, Consume(state.clock, r.value.records), target) != {})
          && r.value.cursor == Cursor(view.epoch, view.genesis, state.clock, if r.value.more then Some(target) else None)
          && |r.value.records| <= PAGE_RECORDS && Bytes(r.value.records) <= PAGE_BYTES
          && (all != {} ==> r.value.records != [])
          && PageIsFull(Pending(view.ops, Consume(state.clock, r.value.records), target), r.value.records))
  }

  /** A cursor between the pages of a pass heads for its own target, any other one for all the topic holds now. */
  ghost predicate Reads(view: View, cursor: Option<Cursor>, r: Result<Catchup, DeliveryError>) {
    match cursor
    case None => Catches(view, Cursor(view.epoch, view.genesis, map[], None), view.clock, r)
    case Some(Cursor(_, _, _, None)) => Catches(view, cursor.value, view.clock, r)
    case Some(Cursor(_, _, _, Some(target))) => Catches(view, cursor.value, target, r)
  }

  lemma ReadsOn(view: View, cursor: Option<Cursor>, r: Result<Catchup, DeliveryError>)
    ensures Reads(view, cursor, r) <==> Catches(view, Resume(view, cursor), TargetOf(view, Resume(view, cursor)), r)
  {}

  method ReadTowards(view: View, state: Cursor, target: Clock) returns (r: Result<Catchup, DeliveryError>)
    requires WellFormed(view.ops)
    ensures Catches(view, state, target, r)
  {
    if !OnBranch(view, state) {
      return Err(Expired);
    }
    if !Within(state.clock, target) {
      return Err(Expired);
    }
    var first := FirstCandidates(view.ops, state.clock, target);
    if first.None? {
      return Err(Expired);
    }
    var records, candidates, end := MergePage(view.ops, state.clock, target, first.value);
    if end.Missing? {
      return Err(Expired);
    }
    if end.TooLarge? {
      return Err(Capacity);
    }
    NoCandidates(Pending(view.ops, Consume(state.clock, records), target), candidates);
    var more := candidates != [];
    return Ok(Catchup(records, state.(target := if more then Some(target) else None), more));
  }

  /** One page. */
  method TopicRecordsSince(view: View, cursor: Option<Cursor>) returns (r: Result<Catchup, DeliveryError>)
    requires WellFormed(view.ops)
    ensures Reads(view, cursor, r)
  {
    var state := Resume(view, cursor);
    r := ReadTowards(view, state, TargetOf(view, state));
    ReadsOn(view, cursor, r);
  }

  // ----- A pass over a growing topic -----

  /** The same branch, holding all it held and perhaps more. */
  ghost predicate Grows(older: View, newer: View) {
    && newer.epoch == older.epoch && newer.genesis == older.genesis && WellFormed(newer.ops)
    && forall id :: id in older.ops ==> id in newer.ops && newer.ops[id] == older.ops[id]
  }

  lemma HeldBefore(older: View, newer: View, x: OpId, last: OpId)
    requires Acyclic(older.ops) && Grows(older, newer) && last in older.ops && x in newer.ops
    requires newer.ops[x].actor == older.ops[last].actor && newer.ops[x].seq_ <= older.ops[last].seq_
    ensures x in older.ops
  {
    if newer.ops[x].seq_ < newer.ops[last].seq_ {
      ActorChain(newer.ops, x, last);
      ClosedHoldsPast(newer.ops, older.ops.Keys, x, last);
    } else {
      assert DotOf(newer.ops[x]) == DotOf(newer.ops[last]);
    }
  }

  /** What arrives later is past every target that existed before. */
  lemma PendingStays(older: View, newer: View, start: Clock, clock: Clock, target: Clock)
    requires Acyclic(older.ops) && Grows(older, newer) && TargetExists(older.ops, start, target) && Leq(start, clock)
    ensures Pending(newer.ops, clock, target) == Pending(older.ops, clock, target)
  {
    forall x | x in newer.ops && newer.ops[x] in Pending(newer.ops, clock, target) ensures x in older.ops {
      var actor := newer.ops[x].actor;
      assert HoldsPosition(older.ops, actor, Get(target, actor));
      var last :| last in older.ops && DotOf(older.ops[last]) == Dot(actor, Get(target, actor));
      HeldBefore(older, newer, x, last);
    }
  }

  lemma TargetStays(older: View, newer: View, start: Clock, clock: Clock, target: Clock)
    requires Grows(older, newer) && TargetExists(older.ops, start, target) && Leq(start, clock)
    ensures TargetExists(newer.ops, clock, target)
  {
    forall a: Actor | Get(clock, a) < Get(target, a) ensures HoldsPosition(newer.ops, a, Get(target, a)) {
      assert HoldsPosition(older.ops, a, Get(target, a));
      var id :| id in older.ops && DotOf(older.ops[id]) == Dot(a, Get(target, a));
      assert DotOf(newer.ops[id]) == Dot(a, Get(target, a));
    }
  }

  /** The cursor stored once a whole page is consumed. */
  function Stored(page: Catchup): Cursor {
    page.cursor.(clock := Consume(page.cursor.clock, page.records))
  }

  /** The pages of one pass, each read from the cursor the last one left, while the topic may grow. */
  ghost predicate ReadOn(views: seq<View>, cursor: Cursor, pages: seq<Catchup>)
    decreases |pages|
  {
    && |views| == |pages| && pages != [] && Reads(views[0], Some(cursor), Ok(pages[0]))
    && (|pages| > 1 ==> pages[0].more && Grows(views[0], views[1]) && ReadOn(views[1..], Stored(pages[0]), pages[1..]))
  }

  function RecordsOf(pages: seq<Catchup>): seq<Op> {
    if pages == [] then [] else pages[0].records + RecordsOf(pages[1..])
  }

  /** One page more in front of a pass. */
  lemma PassLonger(view: View, newer: View, cursor: Cursor, target: Clock, page: Catchup, rest: seq<Op>)
    requires WellFormed(view.ops) && Grows(view, newer) && TargetExists(view.ops, cursor.clock, target)
    requires Catches(view, cursor, target, Ok(page))
    requires LeadingPart(Before, Pending(newer.ops, Stored(page).clock, target), rest)
    ensures
      var all := Pending(view.ops, cursor.clock, target);
      && LeadingPart(Before, all, page.records + rest)
      && (Elements(rest) == Pending(newer.ops, Stored(page).clock, target) ==> Elements(page.records + rest) == all)
  {
    ConsumeGrows(cursor.clock, page.records);
    PendingStays(view, newer, cursor.clock, Stored(page).clock, target);
    ConsumeLeading(view.ops, cursor.clock, target, page.records);
    LeadingPartsJoin(Before, Pending(view.ops, cursor.clock, target), page.records, rest);
  }

  /**
   A pass keeps the target it started with: whatever arrives meanwhile, its pages
   join to a leading part of the merge up to that target, and to all of it once a
   page says that nothing is left.
   */
  lemma {:induction false} OnePassOneTarget(views: seq<View>, cursor: Cursor, target: Clock, pages: seq<Catchup>)
    requires pages != [] && ReadOn(views, cursor, pages) && WellFormed(views[0].ops)
    requires cursor.target == Some(target) || (cursor.target.None? && target == views[0].clock)
    requires TargetExists(views[0].ops, cursor.clock, target)
    ensures LeadingPart(Before, Pending(views[0].ops, cursor.clock, target), RecordsOf(pages))
    ensures pages[|pages| - 1].more || Elements(RecordsOf(pages)) == Pending(views[0].ops, cursor.clock, target)
    decreases |pages|
  {
    var page := pages[0];
    if |pages| == 1 {
      assert RecordsOf(pages) == page.records + [];
      assert page.records + [] == page.records;
      if !page.more {
        WholeWhenNothingPending(views[0].ops, cursor.clock, target, page.records);
      }
    } else {
      ConsumeGrows(cursor.clock, page.records);
      TargetStays(views[0], views[1], cursor.clock, Stored(page).clock, target);
      OnePassOneTarget(views[1..], Stored(page), target, pages[1..]);
      PassLonger(views[0], views[1], cursor, target, page, RecordsOf(pages[1..]));
      assert pages[1..][|pages| - 2] == pages[|pages| - 1];
    }
  }
}

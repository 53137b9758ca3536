/** `history_content`: a replay of the heads' past, by (generation, id), into a map of dot lists. */
module Replays {
  import opened Wrappers
  import opened Clocks
  import opened OrSet
  import opened Topics
  import opened Listings
  import opened Walk
  import opened Shown

  predicate NoRepeats<T(==)>(s: seq<T>) {
    forall i, j :: 0 <= i < j < |s| ==> s[i] != s[j]
  }

  /** `Vec::retain` of the dots a clock does not cover. */
  function Retain(dots: seq<Dot>, witnessed: Clock): (r: seq<Dot>)
    ensures forall d :: d in r <==> d in dots && !Contains(witnessed, d)
    ensures NoRepeats(dots) ==> NoRepeats(r)
    ensures |r| <= |dots|
  {
    if dots == [] then []
    else
      var rest := Retain(dots[..|dots| - 1], witnessed);
      var last := dots[|dots| - 1];
      assert dots == dots[..|dots| - 1] + [last];
      if Contains(witnessed, last) then rest else rest + [last]
  }

  // ----- history_content -----

  type Quads = map<Quad, seq<Dot>>

  function QuadsContent(quads: Quads): Content {
    set q, d | q in quads && d in quads[q] :: Live(q, d)
  }

  predicate Tidy(quads: Quads) {
    forall q :: q in quads ==> quads[q] != [] && NoRepeats(quads[q])
  }

  method ChangeQuads(quads: Quads, e: Event, c: Change) returns (r: Quads)
    requires Tidy(quads)
    ensures Tidy(r)
    ensures QuadsContent(r) == ApplyChange(QuadsContent(quads), e, c)
  {
    match c {
      case Insert(q) =>
        var dots := if q in quads then quads[q] else [];
        r := quads[q := if e.dot in dots then dots else dots + [e.dot]];
        assert forall x :: x in QuadsContent(r) <==> x in QuadsContent(quads) || x == Live(q, e.dot) by {
          assert forall p, d :: p in r && d in r[p] <==> (p in quads && d in quads[p]) || (p == q && d == e.dot);
        }
      case Delete(q) =>
        r := quads;
        if q in quads {
          var dots := Retain(quads[q], e.base);
          r := if dots == [] then quads - {q} else quads[q := dots];
          assert forall p, d :: p in r && d in r[p] <==> p in quads && d in quads[p] && !(p == q && Contains(e.base, d));
        }
    }
  }

  method ChangeAllQuads(quads: Quads, e: Event) returns (r: Quads)
    requires Tidy(quads)
    ensures Tidy(r)
    ensures QuadsContent(r) == ApplyEvent(QuadsContent(quads), e)
  {
    r := quads;
    for i := 0 to |e.changes|
      invariant Tidy(r)
      invariant QuadsContent(r) == ApplyChanges(QuadsContent(quads), e, e.changes[..i])
    {
      PrefixSplitsLast(e.changes, i);
      r := ChangeQuads(r, e, e.changes[i]);
    }
    assert e.changes[..|e.changes|] == e.changes;
  }

  /** A deletion the replay meets; rejected records are skipped. */
  predicate Deletes(op: Op, graph: nat, skip: set<OpId>) {
    op.payload.GraphEvent? && op.payload.graph == graph && op.payload.body.GraphDeleted? && op.id !in skip
  }

  datatype HistoryContents = HistoryContents(quads: Quads, hints: Option<Hints>)

  method ReplayEntries(entries: seq<Op>, graph: nat, rejected: set<OpId>) returns (r: Result<HistoryContents, HistoryError>)
    ensures r.Err? <==> exists i :: 0 <= i < |entries| && Deletes(entries[i], graph, rejected)
    ensures r.Err? ==> r.error == DeletedGraph
    ensures r.Ok? ==>
              && Tidy(r.value.quads)
              && QuadsContent(r.value.quads) == Replay(EventsOf(entries, graph, rejected))
              && r.value.hints == ReplayHints(EventsOf(entries, graph, rejected))
  {
    var quads: Quads := map[];
    var hints: Option<Hints> := None;
    for i := 0 to |entries|
      invariant Tidy(quads)
      invariant QuadsContent(quads) == Replay(EventsOf(entries[..i], graph, rejected))
      invariant hints == ReplayHints(EventsOf(entries[..i], graph, rejected))
      invariant forall k :: 0 <= k < i ==> !Deletes(entries[k], graph, rejected)
    {
      var op := entries[i];
      PrefixSplitsLast(entries, i);
      if Deletes(op, graph, rejected) {
        return Err(DeletedGraph);
      }
      if Replayed(op, graph, rejected) {
        var e := EventOf(op);
        ghost var before := EventsOf(entries[..i], graph, rejected);
        assert (before + [e])[..|before|] == before;
        if e.hints.Some? && (hints.None? || hints.value.tag < e.hints.value.tag) {
          hints := e.hints;
        }
        quads := ChangeAllQuads(quads, e);
      }
    }
    assert entries[..|entries|] == entries;
    return Ok(HistoryContents(quads, hints));
  }

  /** The map holds exactly what the records show. */
  ghost predicate QuadsShow(quads: Quads, ops: Ops, ids: set<OpId>, graph: nat, skip: set<OpId>) {
    forall q, d :: (q in quads && d in quads[q]) <==> Shows(ops, ids, graph, skip, q, d)
  }

  lemma MeaningIsShown(quads: Quads, ops: Ops, ids: set<OpId>, graph: nat, skip: set<OpId>)
    requires WellFormed(ops) && QuadsContent(quads) == Meaning(EventSet(ops, ids, graph, skip))
    ensures QuadsShow(quads, ops, ids, graph, skip)
  {
    forall q, d ensures (q in quads && d in quads[q]) <==> Shows(ops, ids, graph, skip, q, d) {
      MeaningShows(ops, ids, graph, skip, q, d);
      assert Live(q, d) in QuadsContent(quads) <==> q in quads && d in quads[q];
    }
  }

  /**
   The content at `heads` is the order-free meaning of the accepted events in their
   causal past: exactly the quads and dots that the records there show.
   */
  method HistoryContent(ops: Ops, graph: nat, rejected: set<OpId>, heads: set<OpId>, limit: nat, maxBytes: nat)
    returns (r: Result<HistoryContents, HistoryError>)
    requires WellFormed(ops)
    ensures r.Ok? ==>
              && heads <= ops.Keys
              && Tidy(r.value.quads)
              && QuadsContent(r.value.quads) == Meaning(EventSet(ops, PastOf(ops, heads), graph, rejected))
              && Winner(EventSet(ops, PastOf(ops, heads), graph, rejected), r.value.hints)
              && QuadsShow(r.value.quads, ops, PastOf(ops, heads), graph, rejected)
              && HintsShown(ops, PastOf(ops, heads), graph, rejected, r.value.hints)
    ensures r.Ok? ==>
              forall id :: id in PastOf(ops, heads) && id !in rejected ==>
                             !(ops[id].payload.GraphEvent? && ops[id].payload.graph == graph && ops[id].payload.body.GraphDeleted?)
    ensures r == Err(DeletedGraph) ==>
              && heads <= ops.Keys
              && exists id :: id in PastOf(ops, heads) && id !in rejected && ops[id].payload.GraphEvent?
                              && ops[id].payload.graph == graph && ops[id].payload.body.GraphDeleted?
    ensures heads != {} && heads <= ops.Keys && maxBytes > 0
            && |Select(ops, PastOf(ops, heads))| <= limit && |heads| <= limit && !Overflows(ops, heads, limit, maxBytes)
            ==> r.Ok? || r == Err(DeletedGraph)
  {
    var listed := HistoryEntries(ops, heads, limit, maxBytes);
    if listed.Err? {
      return Err(listed.error);
    }
    var entries := listed.value;
    ListedAreOps(ops, entries);
    CausalOpsReplay(ops, entries, graph, rejected);
    EventsAreTheSet(ops, entries, graph, rejected);
    ReplayHintsWin(EventsOf(entries, graph, rejected));
    r := ReplayEntries(entries, graph, rejected);
    if r.Err? {
      var i :| 0 <= i < |entries| && Deletes(entries[i], graph, rejected);
      assert entries[i].id in Ids(entries);
    } else {
      MeaningIsShown(r.value.quads, ops, PastOf(ops, heads), graph, rejected);
      WinnerIsShown(ops, PastOf(ops, heads), graph, rejected, r.value.hints);
    }
  }

  lemma ListedAreOps(ops: Ops, entries: seq<Op>)
    requires Acyclic(ops) && CausalOps(ops, entries)
    ensures forall id :: id in Ids(entries) ==> id in ops && exists i :: 0 <= i < |entries| && entries[i] == ops[id]
    ensures forall i :: 0 <= i < |entries| ==> entries[i].id in ops && ops[entries[i].id] == entries[i]
  {
  }
}

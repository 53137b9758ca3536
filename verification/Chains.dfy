/**
 The topics of one actor that inserts the same quad again and again. They show
 that the limits of a replayed history do not include those of `check_snapshot`.
 */
module Chains {
  import opened Wrappers
  import opened Clocks
  import opened OrSet
  import opened Topics
  import opened Listings
  import opened Snapshots
  import opened Envelopes
  import D = Delivery

  function ChainOp(q: Quad, graph: nat, i: nat): Op
    requires i > 0
  {
    Op(i, 0, i, i, if i == 1 then {} else {i - 1}, if i == 1 then map[] else map[0 := i - 1],
       GraphEvent(graph, true, Mutation(i, [Insert(q)], None)), 1)
  }

  /** The topic after `n` inserts. */
  function Chain(q: Quad, graph: nat, n: nat): Ops {
    map i: nat | 1 <= i <= n :: ChainOp(q, graph, i)
  }

  lemma ChainAcyclic(q: Quad, graph: nat, n: nat)
    ensures Acyclic(Chain(q, graph, n))
  {}

  lemma {:induction false} ChainBelow(q: Quad, graph: nat, n: nat, a: OpId, b: OpId)
    requires Acyclic(Chain(q, graph, n)) && 1 <= b <= n
    ensures Below(Chain(q, graph, n), a, b) <==> 1 <= a <= b
    decreases b
  {
    if b > 1 {
      ChainBelow(q, graph, n, a, b - 1);
    }
    assert Chain(q, graph, n)[b].deps == if b == 1 then {} else {b - 1};
  }

  lemma ChainWellFormed(q: Quad, graph: nat, n: nat)
    ensures WellFormed(Chain(q, graph, n))
  {
    var ops := Chain(q, graph, n);
    ChainAcyclic(q, graph, n);
    forall a, b | a in ops && b in ops && ops[a].actor == ops[b].actor && ops[a].seq_ < ops[b].seq_ ensures ChainStep(ops, a, b) {
      assert b - 1 in ops[b].deps && ops[b - 1].seq_ == b - 1;
    }
    forall a, b | a in ops && b in ops && a != b ensures Contains(ops[b].observed, DotOf(ops[a])) <==> Below(ops, a, b) {
      ChainBelow(q, graph, n, a, b);
    }
  }

  function ChainView(q: Quad, graph: nat, n: nat): D.View {
    D.View(Chain(q, graph, n), map[0 := n], 0, 0)
  }

  lemma ChainViewValid(q: Quad, graph: nat, n: nat)
    ensures D.ValidView(ChainView(q, graph, n))
  {
    var view := ChainView(q, graph, n);
    ChainWellFormed(q, graph, n);
    forall a: Actor | 0 < Get(view.clock, a) ensures D.HoldsPosition(view.ops, a, Get(view.clock, a)) {
      assert n in view.ops && DotOf(view.ops[n]) == Dot(a, n);
    }
  }

  function ChainList(q: Quad, graph: nat, n: nat): (os: seq<Op>)
    ensures |os| == n && forall i :: 0 <= i < n ==> os[i] == ChainOp(q, graph, i + 1)
  {
    if n == 0 then [] else ChainList(q, graph, n - 1) + [ChainOp(q, graph, n)]
  }

  function ChainDots(n: nat): (dots: seq<Dot>)
    ensures |dots| == n && forall i :: 0 <= i < n ==> dots[i] == Dot(0, i + 1)
  {
    if n == 0 then [] else ChainDots(n - 1) + [Dot(0, n)]
  }

  lemma ChainFits(q: Quad, n: nat)
    requires TermBytes(q) + DOT_BYTES * n <= MAX_BYTES
    ensures ContentFits(DotsOn(q, ChainDots(n)))
  {
    if n == 0 {
      assert DotsOn(q, []) == {} && Keys({}) == {};
    } else {
      CostOfRow({}, q, ChainDots(n));
      assert {} + DotsOn(q, ChainDots(n)) == DotsOn(q, ChainDots(n));
      assert Keys({}) == {};
    }
  }

  /** Every insert passes while the bytes last, and leaves one more dot on the quad. */
  lemma {:induction false} ChainPasses(q: Quad, graph: nat, n: nat)
    requires TermBytes(q) + DOT_BYTES * n <= MAX_BYTES
    ensures AllPass(ChainList(q, graph, n), graph)
    ensures Replay(EventsOf(ChainList(q, graph, n), graph, {})) == DotsOn(q, ChainDots(n))
  {
    if n > 0 {
      ChainPasses(q, graph, n - 1);
      AllPassLonger(ChainList(q, graph, n - 1), ChainOp(q, graph, n), graph);
      NextInsert(q, graph, n);
    }
  }

  lemma NextInsert(q: Quad, graph: nat, n: nat)
    requires n > 0 && TermBytes(q) + DOT_BYTES * n <= MAX_BYTES
    ensures
      var s := DotsOn(q, ChainDots(n - 1));
      Passes(s, ChainOp(q, graph, n), graph) && Applied(s, ChainOp(q, graph, n), graph) == DotsOn(q, ChainDots(n))
  {
    ChainFits(q, n - 1);
    ChainFits(q, n);
    DotsOnLonger(q, ChainDots(n - 1), Dot(0, n));
    OneInsert(DotsOn(q, ChainDots(n - 1)), EventOf(ChainOp(q, graph, n)), q);
  }

  lemma OneInsert(s: Content, e: Event, q: Quad)
    requires e.changes == [Insert(q)] && ContentFits(s) && ContentFits(s + {Live(q, e.dot)})
    ensures EventFits(s, e) && ApplyEvent(s, e) == s + {Live(q, e.dot)}
  {
    assert e.changes[..0] == [];
    assert ApplyChanges(s, e, e.changes) == ApplyChange(ApplyChanges(s, e, []), e, Insert(q));
  }

  lemma ChainListed(q: Quad, graph: nat, n: nat)
    ensures LeadingPart(D.Before, Everything(ChainView(q, graph, n)), ChainList(q, graph, n))
    ensures Elements(ChainList(q, graph, n)) == Everything(ChainView(q, graph, n))
  {
    var view, os := ChainView(q, graph, n), ChainList(q, graph, n);
    forall x ensures x in Everything(view) <==> x in os {
      if x in Everything(view) {
        assert os[x.id - 1] == x;
      }
      if x in os {
        var i :| 0 <= i < |os| && os[i] == x;
        assert i + 1 in view.ops && view.ops[i + 1] == x;
      }
    }
  }

  function ChainRows(q: Quad, n: nat): seq<Row> {
    [Row(q, ChainDots(n))]
  }

  lemma ChainRowsTidy(q: Quad, n: nat)
    requires n > 0
    ensures TidyRows(ChainRows(q, n)) && CoveredRows(ChainRows(q, n), map[0 := n])
    ensures RowsBytes(ChainRows(q, n)) == TermBytes(q) + DOT_BYTES * n && RowsDots(ChainRows(q, n)) == n
  {
    var rows := ChainRows(q, n);
    assert rows[..0] == [];
    assert RowsBytes(rows) == RowBytes(rows[0]) && RowsDots(rows) == |rows[0].dots|;
  }

  lemma ChainRowsContent(q: Quad, n: nat)
    ensures RowsContent(ChainRows(q, n)) == DotsOn(q, ChainDots(n))
  {
    var rows := ChainRows(q, n);
    forall x: Live ensures x in RowsContent(rows) <==> x in DotsOn(q, ChainDots(n)) {
      assert rows[0].quad == q && rows[0].dots == ChainDots(n);
    }
  }

  /**
   For every number of inserts whose bytes are within the limit, the history of
   the chain is a snapshot with that many dots on one row.
   */
  lemma ChainSnapshot(q: Quad, graph: nat, n: nat)
    requires n > 0 && TermBytes(q) + DOT_BYTES * n <= MAX_BYTES
    ensures D.ValidView(ChainView(q, graph, n))
    ensures EndsAfter(ChainView(q, graph, n), graph, ChainList(q, graph, n), LiveRows(ChainRows(q, n), map[0 := n]))
    ensures IsSnapshot(Chain(q, graph, n), graph, ChainRows(q, n), map[0 := n])
    ensures RowsDots(ChainRows(q, n)) == n
  {
    var view, done, rows := ChainView(q, graph, n), ChainList(q, graph, n), ChainRows(q, n);
    ChainViewValid(q, graph, n);
    ChainPasses(q, graph, n);
    ChainListed(q, graph, n);
    ChainRowsTidy(q, n);
    ChainRowsContent(q, n);
    WholeTopic(view, graph, done, rows, map[0 := n]);
  }

  /** With one insert more than the dot limit, a history within its own limits is no snapshot any check accepts. */
  lemma HistoryCanExceedDots(check: Check, name: string, q: Quad, graph: nat)
    requires TermBytes(q) + DOT_BYTES * (MAX_DOTS + 1) <= MAX_BYTES
    ensures
      var n := MAX_DOTS + 1;
      && EndsAfter(ChainView(q, graph, n), graph, ChainList(q, graph, n), LiveRows(ChainRows(q, n), map[0 := n]))
      && IsSnapshot(Chain(q, graph, n), graph, ChainRows(q, n), map[0 := n])
      && !SnapshotOk(check, name, ChainRows(q, n), map[0 := n])
  {
    var n := MAX_DOTS + 1;
    ChainSnapshot(q, graph, n);
    RowTotals(ChainRows(q, n), map[0 := n]);
  }
}

/**
 `history_snapshot`: a replay of the whole topic, page by page in the order
 (generation, actor, sequence, id), into a row list bounded in rows and bytes.
 */
module Snapshots {
  import opened Wrappers
  import opened Clocks
  import opened OrSet
  import opened Topics
  import opened Listings
  import opened Replays
  import D = Delivery
  import P = Passes

  // ----- history_snapshot -----

  const MAX_BYTES: nat := 64 * 1024 * 1024
  const MAX_ROWS: nat := 1048576
  const DOT_BYTES: nat := 40

  datatype Row = Row(quad: Quad, dots: seq<Dot>)

  function TermBytes(q: Quad): nat {
    |q.subject| + |q.predicate_| + |q.object_|
  }

  function RowBytes(row: Row): nat {
    TermBytes(row.quad) + DOT_BYTES * |row.dots|
  }

  function RowsBytes(rows: seq<Row>): nat {
    if rows == [] then 0 else RowsBytes(rows[..|rows| - 1]) + RowBytes(rows[|rows| - 1])
  }

  function RowsContent(rows: seq<Row>): Content {
    set i, d | 0 <= i < |rows| && d in rows[i].dots :: Live(rows[i].quad, d)
  }

  predicate UniqueQuads(rows: seq<Row>) {
    forall i, j :: 0 <= i < j < |rows| ==> rows[i].quad != rows[j].quad
  }

  /** Rows as `check_snapshot` wants them, apart from its dot and actor limits. */
  predicate TidyRows(rows: seq<Row>) {
    && UniqueQuads(rows)
    && forall i :: 0 <= i < |rows| ==> rows[i].dots != [] && NoRepeats(rows[i].dots)
  }

  ghost predicate CoveredRows(rows: seq<Row>, clock: Clock) {
    forall i, d :: 0 <= i < |rows| && d in rows[i].dots ==> Contains(clock, d)
  }

  lemma {:induction false} BytesOfUpdate(rows: seq<Row>, k: nat, row: Row)
    requires k < |rows|
    ensures RowsBytes(rows[k := row]) + RowBytes(rows[k]) == RowsBytes(rows) + RowBytes(row)
  {
    var n := |rows| - 1;
    if k < n {
      BytesOfUpdate(rows[..n], k, row);
      assert rows[k := row][..n] == rows[..n][k := row];
    } else {
      assert rows[k := row][..n] == rows[..n];
    }
  }

  lemma BytesOfPush(rows: seq<Row>, row: Row)
    ensures RowsBytes(rows + [row]) == RowsBytes(rows) + RowBytes(row)
  {
    assert (rows + [row])[..|rows|] == rows;
  }

  /** `Vec::swap_remove`. */
  function DropRow(rows: seq<Row>, k: nat): seq<Row>
    requires k < |rows|
  {
    var n := |rows| - 1;
    if k == n then rows[..n] else rows[..n][k := rows[n]]
  }

  lemma BytesOfLast(rows: seq<Row>)
    requires rows != []
    ensures RowsBytes(rows) == RowsBytes(rows[..|rows| - 1]) + RowBytes(rows[|rows| - 1])
  {}

  lemma BytesOfDrop(rows: seq<Row>, k: nat)
    requires k < |rows|
    ensures RowsBytes(DropRow(rows, k)) + RowBytes(rows[k]) == RowsBytes(rows)
  {
    var n := |rows| - 1;
    var front, last, row := rows[..n], rows[n], rows[k];
    BytesOfLast(rows);
    if k < n {
      assert front[k] == row;
      BytesOfUpdate(front, k, last);
    }
  }

  method FindRow(rows: seq<Row>, q: Quad) returns (r: Option<nat>)
    ensures r.None? <==> !HasRow(rows, q)
    ensures r.Some? ==> r.value < |rows| && rows[r.value].quad == q
  {
    for i := 0 to |rows|
      invariant forall k :: 0 <= k < i ==> rows[k].quad != q
    {
      if rows[i].quad == q {
        return Some(i);
      }
    }
    return None;
  }

  lemma UpdateContent(rows: seq<Row>, k: nat, dots: seq<Dot>)
    requires k < |rows| && UniqueQuads(rows)
    ensures UniqueQuads(rows[k := Row(rows[k].quad, dots)])
    ensures forall x :: x in RowsContent(rows[k := Row(rows[k].quad, dots)]) <==>
              if x.quad == rows[k].quad then x.dot in dots else x in RowsContent(rows)
  {
    var after := rows[k := Row(rows[k].quad, dots)];
    forall x ensures x in RowsContent(after) <==> if x.quad == rows[k].quad then x.dot in dots else x in RowsContent(rows) {
      if x.quad == rows[k].quad && x.dot in dots {
        assert after[k].quad == x.quad && x.dot in after[k].dots;
      }
      if x.quad != rows[k].quad && x in RowsContent(rows) {
        var i :| 0 <= i < |rows| && x.dot in rows[i].dots && rows[i].quad == x.quad;
        assert after[i] == rows[i];
      }
    }
  }

  lemma DropContent(rows: seq<Row>, k: nat)
    requires k < |rows| && UniqueQuads(rows)
    ensures UniqueQuads(DropRow(rows, k))
    ensures forall x :: x in RowsContent(DropRow(rows, k)) <==> x.quad != rows[k].quad && x in RowsContent(rows)
  {
    var n, after := |rows| - 1, DropRow(rows, k);
    assert forall i :: 0 <= i < n ==> after[i] == if i == k then rows[n] else rows[i];
    forall x: Live | x.quad != rows[k].quad && x in RowsContent(rows) ensures x in RowsContent(after) {
      var i :| 0 <= i < |rows| && x.dot in rows[i].dots && rows[i].quad == x.quad;
      assert after[if i == n then k else i] == rows[i];
    }
  }

  lemma PushContent(rows: seq<Row>, row: Row)
    requires UniqueQuads(rows) && forall i :: 0 <= i < |rows| ==> rows[i].quad != row.quad
    ensures UniqueQuads(rows + [row])
    ensures forall x :: x in RowsContent(rows + [row]) <==> x in RowsContent(rows) || (x.quad == row.quad && x.dot in row.dots)
  {
    var after := rows + [row];
    forall x | x in RowsContent(rows) || (x.quad == row.quad && x.dot in row.dots) ensures x in RowsContent(after) {
      if x in RowsContent(rows) {
        var i :| 0 <= i < |rows| && x.dot in rows[i].dots && rows[i].quad == x.quad;
        assert after[i] == rows[i];
      } else {
        assert after[|rows|] == row;
      }
    }
  }

  // ----- What a content costs -----

  ghost function SumTerms(qs: set<Quad>): nat {
    if qs == {} then 0 else
      var q :| q in qs;
      TermBytes(q) + SumTerms(qs - {q})
  }

  lemma SumTermsPick(qs: set<Quad>) returns (q: Quad)
    requires qs != {}
    ensures q in qs && SumTerms(qs) == TermBytes(q) + SumTerms(qs - {q})
  {
    q :| q in qs && SumTerms(qs) == TermBytes(q) + SumTerms(qs - {q});
  }

  lemma {:induction false} SumTermsWith(qs: set<Quad>, q: Quad)
    requires q !in qs
    ensures SumTerms(qs + {q}) == SumTerms(qs) + TermBytes(q)
    decreases |qs|
  {
    var p := SumTermsPick(qs + {q});
    if p == q {
      assert qs + {q} - {q} == qs;
    } else {
      var less := qs - {p};
      SumTermsWith(less, q);
      SumTermsWith(less, p);
      assert qs + {q} - {p} == less + {q};
      assert less + {p} == qs;
    }
  }

  /** The bytes `apply_history` counts for a content: its terms once per quad, and 40 for every dot. */
  ghost function ContentBytes(s: Content): nat {
    SumTerms(Keys(s)) + DOT_BYTES * |s|
  }

  ghost predicate ContentFits(s: Content) {
    ContentBytes(s) <= MAX_BYTES && |Keys(s)| <= MAX_ROWS
  }

  lemma CostOfDot(s: Content, x: Live)
    requires x !in s
    ensures ContentBytes(s + {x}) == ContentBytes(s) + DOT_BYTES + (if x.quad in Keys(s) then 0 else TermBytes(x.quad))
    ensures |Keys(s + {x})| == |Keys(s)| + (if x.quad in Keys(s) then 0 else 1)
  {
    assert Keys(s + {x}) == Keys(s) + {x.quad};
    if x.quad in Keys(s) {
      assert Keys(s) + {x.quad} == Keys(s);
    } else {
      SumTermsWith(Keys(s), x.quad);
    }
  }

  ghost function DotsOn(q: Quad, dots: seq<Dot>): Content {
    set d | d in dots :: Live(q, d)
  }

  lemma DotsOnLonger(q: Quad, dots: seq<Dot>, d: Dot)
    ensures DotsOn(q, dots + [d]) == DotsOn(q, dots) + {Live(q, d)}
  {}

  lemma RowLonger(s: Content, q: Quad, dots: seq<Dot>, d: Dot)
    requires q !in Keys(s) && d !in dots
    ensures s + DotsOn(q, dots + [d]) == s + DotsOn(q, dots) + {Live(q, d)}
    ensures Live(q, d) !in s + DotsOn(q, dots)
    ensures dots == [] ==> s + DotsOn(q, dots) == s
  {
    DotsOnLonger(q, dots, d);
    assert Live(q, d) !in s;
  }

  lemma {:induction false} CostOfRow(s: Content, q: Quad, dots: seq<Dot>)
    requires q !in Keys(s) && dots != [] && NoRepeats(dots)
    ensures ContentBytes(s + DotsOn(q, dots)) == ContentBytes(s) + TermBytes(q) + DOT_BYTES * |dots|
    ensures Keys(s + DotsOn(q, dots)) == Keys(s) + {q}
  {
    var n := |dots| - 1;
    var front, d := dots[..n], dots[n];
    assert dots == front + [d];
    RowLonger(s, q, front, d);
    if n > 0 {
      CostOfRow(s, q, front);
    }
    CostOfDot(s + DotsOn(q, front), Live(q, d));
  }

  predicate HasRow(rows: seq<Row>, q: Quad) {
    exists i :: 0 <= i < |rows| && rows[i].quad == q
  }

  lemma KeyOfRow(rows: seq<Row>, q: Quad)
    requires TidyRows(rows)
    ensures q in Keys(RowsContent(rows)) <==> HasRow(rows, q)
  {
    if HasRow(rows, q) {
      var i :| 0 <= i < |rows| && rows[i].quad == q;
      assert rows[i].dots[0] in rows[i].dots && Live(q, rows[i].dots[0]) in RowsContent(rows);
    }
  }

  lemma RowsContentSplit(rows: seq<Row>)
    requires rows != [] && TidyRows(rows)
    ensures
      var n := |rows| - 1;
      && TidyRows(rows[..n]) && !HasRow(rows[..n], rows[n].quad)
      && RowsContent(rows) == RowsContent(rows[..n]) + DotsOn(rows[n].quad, rows[n].dots)
  {
    var n := |rows| - 1;
    assert forall i :: 0 <= i < n ==> rows[..n][i] == rows[i];
    assert rows == rows[..n] + [rows[n]];
    PushContent(rows[..n], rows[n]);
  }

  /** Tidy rows are counted as their content is. */
  lemma {:induction false} RowsCost(rows: seq<Row>)
    requires TidyRows(rows)
    ensures RowsBytes(rows) == ContentBytes(RowsContent(rows)) && |rows| == |Keys(RowsContent(rows))|
  {
    if rows == [] {
      assert RowsContent(rows) == {} && Keys(RowsContent(rows)) == {};
    } else {
      var n := |rows| - 1;
      RowsContentSplit(rows);
      RowsCost(rows[..n]);
      KeyOfRow(rows[..n], rows[n].quad);
      CostOfRow(RowsContent(rows[..n]), rows[n].quad, rows[n].dots);
    }
  }

  /** What adding a new dot to tidy rows would cost. */
  lemma AddCost(rows: seq<Row>, q: Quad, d: Dot)
    requires TidyRows(rows) && Live(q, d) !in RowsContent(rows)
    ensures
      var more := RowsContent(rows) + {Live(q, d)};
      && ContentBytes(more) == RowsBytes(rows) + DOT_BYTES + (if HasRow(rows, q) then 0 else TermBytes(q))
      && |Keys(more)| == |rows| + (if HasRow(rows, q) then 0 else 1)
  {
    RowsCost(rows);
    KeyOfRow(rows, q);
    CostOfDot(RowsContent(rows), Live(q, d));
  }

  /** Every content on the way through the changes is within the limits. */
  ghost predicate ChangesFit(s: Content, e: Event, cs: seq<Change>) {
    ContentFits(ApplyChanges(s, e, cs)) && (cs != [] ==> ChangesFit(s, e, cs[..|cs| - 1]))
  }

  ghost predicate EventFits(s: Content, e: Event) {
    ChangesFit(s, e, e.changes)
  }

  lemma {:induction false} FailingChange(s: Content, e: Event, cs: seq<Change>, n: nat)
    requires n <= |cs| && !ChangesFit(s, e, cs[..n])
    ensures !ChangesFit(s, e, cs)
  {
    if n < |cs| {
      assert cs[..|cs| - 1][..n] == cs[..n];
      FailingChange(s, e, cs[..|cs| - 1], n);
    } else {
      assert cs[..n] == cs;
    }
  }

  /** One change further: the prefix still fits, or the whole event does not. */
  lemma NextChange(s: Content, e: Event, cs: seq<Change>, i: nat)
    requires i < |cs| && ChangesFit(s, e, cs[..i])
    ensures
      var next := ApplyChange(ApplyChanges(s, e, cs[..i]), e, cs[i]);
      && next == ApplyChanges(s, e, cs[..i + 1])
      && if ContentFits(next) then ChangesFit(s, e, cs[..i + 1]) else !ChangesFit(s, e, cs)
  {
    PrefixSplitsLast(cs, i);
    if !ContentFits(ApplyChanges(s, e, cs[..i + 1])) {
      FailingChange(s, e, cs, i + 1);
    }
  }

  lemma {:induction false} ChangedDots(s: Content, e: Event, cs: seq<Change>, x: Live)
    requires x in ApplyChanges(s, e, cs)
    ensures x in s || x.dot == e.dot
  {
    if cs != [] && x.dot != e.dot {
      ChangedDots(s, e, cs[..|cs| - 1], x);
    }
  }

  lemma CoveredAfter(rows: seq<Row>, clock: Clock, e: Event, after: seq<Row>)
    requires CoveredRows(rows, clock) && RowsContent(after) == ApplyEvent(RowsContent(rows), e)
    ensures CoveredRows(after, Observe(clock, e.dot.actor, e.dot.counter))
  {
    forall i, d | 0 <= i < |after| && d in after[i].dots ensures Contains(Observe(clock, e.dot.actor, e.dot.counter), d) {
      var x := Live(after[i].quad, d);
      assert x in RowsContent(after);
      ChangedDots(RowsContent(rows), e, e.changes, x);
    }
  }

  lemma PushTidy(rows: seq<Row>, q: Quad, d: Dot)
    requires TidyRows(rows) && !HasRow(rows, q)
    ensures TidyRows(rows + [Row(q, [d])]) && Live(q, d) !in RowsContent(rows)
    ensures RowsContent(rows + [Row(q, [d])]) == RowsContent(rows) + {Live(q, d)}
  {
    PushContent(rows, Row(q, [d]));
    forall x: Live ensures x in RowsContent(rows + [Row(q, [d])]) <==> x in RowsContent(rows) + {Live(q, d)} {}
  }

  lemma DotAdded(rows: seq<Row>, k: nat, d: Dot)
    requires TidyRows(rows) && k < |rows| && d !in rows[k].dots
    ensures
      var after := rows[k := Row(rows[k].quad, rows[k].dots + [d])];
      TidyRows(after) && RowsContent(after) == RowsContent(rows) + {Live(rows[k].quad, d)}
  {
    UpdateContent(rows, k, rows[k].dots + [d]);
    RowMembers(rows, k);
  }

  /** The state `apply_history` updates in place. */
  class HistoryBuild {
    var rows: seq<Row>
    var bytes: nat
    var clock: Clock

    /** Exact byte accounting within the limits, over tidy rows. */
    ghost predicate Counted()
      reads this
    {
      TidyRows(rows) && bytes == RowsBytes(rows) && bytes <= MAX_BYTES && |rows| <= MAX_ROWS
    }

    ghost predicate Valid()
      reads this
    {
      Counted() && CoveredRows(rows, clock)
    }

    constructor ()
      ensures Valid() && rows == [] && clock == map[]
    {
      rows, bytes, clock := [], 0, map[];
    }

    /** One insert; refused exactly when the content with it would pass the row or byte limit. */
    method Add(q: Quad, d: Dot) returns (ok: bool)
      requires Counted()
      modifies this
      ensures Counted() && clock == old(clock)
      ensures ok <==> ContentFits(old(RowsContent(rows)) + {Live(q, d)})
      ensures ok ==> RowsContent(rows) == old(RowsContent(rows)) + {Live(q, d)}
      ensures !ok ==> rows == old(rows)
    {
      var index := FindRow(rows, q);
      if index.Some? {
        ok := AddToRow(index.value, d);
      } else {
        ok := AddRow(q, d);
      }
    }

    method AddToRow(k: nat, d: Dot) returns (ok: bool)
      requires Counted() && k < |rows|
      modifies this
      ensures Counted() && clock == old(clock)
      ensures
        var more := old(RowsContent(rows)) + {Live(old(rows)[k].quad, d)};
        (ok <==> ContentFits(more)) && (ok ==> RowsContent(rows) == more) && (!ok ==> rows == old(rows))
    {
      var row := rows[k];
      RowMembers(rows, k);
      if d in row.dots {
        RowsCost(rows);
        assert RowsContent(rows) + {Live(row.quad, d)} == RowsContent(rows);
        return true;
      }
      AddCost(rows, row.quad, d);
      if bytes + DOT_BYTES > MAX_BYTES {
        return false;
      }
      BytesOfUpdate(rows, k, Row(row.quad, row.dots + [d]));
      DotAdded(rows, k, d);
      rows := rows[k := Row(row.quad, row.dots + [d])];
      bytes := bytes + DOT_BYTES;
      return true;
    }

    method AddRow(q: Quad, d: Dot) returns (ok: bool)
      requires Counted() && !HasRow(rows, q)
      modifies this
      ensures Counted() && clock == old(clock)
      ensures
        var more := old(RowsContent(rows)) + {Live(q, d)};
        (ok <==> ContentFits(more)) && (ok ==> RowsContent(rows) == more) && (!ok ==> rows == old(rows))
    {
      PushTidy(rows, q, d);
      AddCost(rows, q, d);
      if |rows| >= MAX_ROWS || bytes + TermBytes(q) + DOT_BYTES > MAX_BYTES {
        return false;
      }
      BytesOfPush(rows, Row(q, [d]));
      rows := rows + [Row(q, [d])];
      bytes := bytes + TermBytes(q) + DOT_BYTES;
      return true;
    }

    /** One delete; the byte count goes down by exactly what is dropped, so its subtractions never saturate. */
    method Remove(q: Quad, witnessed: Clock)
      requires Counted()
      modifies this
      ensures Counted() && clock == old(clock)
      ensures RowsContent(rows) == set x | x in old(RowsContent(rows)) && !(x.quad == q && Contains(witnessed, x.dot))
    {
      var index := FindRow(rows, q);
      if index.Some? {
        RemoveFrom(index.value, Retain(rows[index.value].dots, witnessed), witnessed);
      }
    }

    method RemoveFrom(k: nat, kept: seq<Dot>, ghost witnessed: Clock)
      requires Counted() && k < |rows| && kept == Retain(rows[k].dots, witnessed)
      modifies this
      ensures Counted() && clock == old(clock)
      ensures RowsContent(rows) ==
              set x | x in old(RowsContent(rows)) && !(x.quad == old(rows)[k].quad && Contains(witnessed, x.dot))
    {
      var row := rows[k];
      UpdateContent(rows, k, kept);
      BytesOfUpdate(rows, k, Row(row.quad, kept));
      RowMembers(rows, k);
      ghost var before := rows;
      rows := rows[k := Row(row.quad, kept)];
      bytes := bytes - (|row.dots| - |kept|) * DOT_BYTES;
      if kept == [] {
        DropContent(rows, k);
        BytesOfDrop(rows, k);
        bytes := bytes - TermBytes(row.quad);
        DroppedRows(before, k, kept);
        rows := DropRow(rows, k);
      }
    }

    method Change(e: Event, c: Change) returns (ok: bool)
      requires Counted()
      modifies this
      ensures Counted() && clock == old(clock)
      ensures ok <==> ContentFits(ApplyChange(old(RowsContent(rows)), e, c))
      ensures ok ==> RowsContent(rows) == ApplyChange(old(RowsContent(rows)), e, c)
    {
      match c {
        case Insert(q) => ok := Add(q, e.dot);
        case Delete(q) =>
          Remove(q, e.base);
          RowsCost(rows);
          ok := true;
      }
    }

    /** The event's changes in order, up to the first that does not fit. */
    method ChangeAll(e: Event) returns (ok: bool)
      requires Counted() && ContentFits(RowsContent(rows))
      modifies this
      ensures Counted() && clock == old(clock)
      ensures ok <==> EventFits(old(RowsContent(rows)), e)
      ensures ok ==> RowsContent(rows) == ApplyEvent(old(RowsContent(rows)), e)
    {
      ghost var start := RowsContent(rows);
      for i := 0 to |e.changes|
        invariant Counted() && clock == old(clock)
        invariant RowsContent(rows) == ApplyChanges(start, e, e.changes[..i])
        invariant ChangesFit(start, e, e.changes[..i])
      {
        NextChange(start, e, e.changes, i);
        var fits := Change(e, e.changes[i]);
        if !fits {
          return false;
        }
      }
      assert e.changes[..|e.changes|] == e.changes;
      return true;
    }

    /** A whole event, then the clock; refused exactly when it does not fit. A refusal leaves the build to be thrown away. */
    method Apply(e: Event) returns (ok: bool)
      requires Valid()
      modifies this
      ensures ok <==> EventFits(old(RowsContent(rows)), e)
      ensures ok ==> Valid()
      ensures ok ==> RowsContent(rows) == ApplyEvent(old(RowsContent(rows)), e)
      ensures ok ==> clock == Observe(old(clock), e.dot.actor, e.dot.counter)
    {
      RowsCost(rows);
      ghost var before := rows;
      ok := ChangeAll(e);
      if ok {
        CoveredAfter(before, clock, e, rows);
        clock := Observe(clock, e.dot.actor, e.dot.counter);
      }
    }
  }

  /** The outcome of one record of `apply_history`. */
  datatype ApplyOutcome = Continue | Tombstone | Refused

  /** A record the snapshot accepts without stopping. */
  predicate Accepted(op: Op, graph: nat) {
    op.payload.Control?
    || (op.payload.GraphEvent? && op.payload.graph == graph && !op.payload.body.GraphDeleted?
        && (op.payload.body.Mutation? ==> op.payload.wellFormed))
  }

  /** A record the build goes on after: accepted, and within the limits all the way. */
  ghost predicate Takes(s: Content, op: Op, graph: nat) {
    Accepted(op, graph) && (Replayed(op, graph, {}) ==> EventFits(s, EventOf(op)))
  }

  /** The content after one accepted record. */
  function Applied(s: Content, op: Op, graph: nat): Content {
    if Replayed(op, graph, {}) then ApplyEvent(s, EventOf(op)) else s
  }

  /** One record: event records of another graph, undecodable ones and malformed mutations refuse the whole snapshot. */
  method ApplyHistory(build: HistoryBuild, op: Op, graph: nat) returns (outcome: ApplyOutcome)
    requires build.Valid()
    modifies build
    ensures outcome.Tombstone? <==> Deletes(op, graph, {})
    ensures outcome.Continue? <==> Takes(old(RowsContent(build.rows)), op, graph)
    ensures op.payload.Control? || (op.payload.GraphEvent? && op.payload.graph == graph && op.payload.body.Policy?) ==>
              outcome.Continue? && build.rows == old(build.rows) && build.clock == old(build.clock)
    ensures outcome.Continue? ==>
              && build.Valid()
              && RowsContent(build.rows) == Applied(old(RowsContent(build.rows)), op, graph)
              && build.clock == (if Replayed(op, graph, {}) then Observe(old(build.clock), op.actor, op.seq_) else old(build.clock))
  {
    match op.payload {
      case Control => return Continue;
      case Undecodable => return Refused;
      case GraphEvent(target, wellFormed, body) =>
        if target != graph {
          return Refused;
        }
        match body {
          case GraphDeleted => return Tombstone;
          case Policy(_, _) => return Continue;
          case Mutation(_, _, _) =>
            if !wellFormed {
              return Refused;
            }
            var ok := build.Apply(EventOf(op));
            return if ok then Continue else Refused;
        }
    }
  }

  lemma RowMembers(rows: seq<Row>, k: nat)
    requires k < |rows| && UniqueQuads(rows)
    ensures forall x :: x in RowsContent(rows) && x.quad == rows[k].quad <==> x.quad == rows[k].quad && x.dot in rows[k].dots
  {
  }

  lemma DroppedRows(rows: seq<Row>, k: nat, kept: seq<Dot>)
    requires k < |rows| && TidyRows(rows)
    ensures TidyRows(DropRow(rows[k := Row(rows[k].quad, kept)], k))
  {
    var n, after := |rows| - 1, DropRow(rows[k := Row(rows[k].quad, kept)], k);
    assert forall i :: 0 <= i < n ==> after[i] == if i == k then rows[n] else rows[i];
  }

  datatype Snapshot = LiveRows(rows: seq<Row>, clock: Clock) | Tombstoned | Failed

  /** Rows that mean the whole topic, with everything `check_snapshot` demands except its dot and actor limits. */
  ghost predicate IsSnapshot(ops: Ops, graph: nat, rows: seq<Row>, clock: Clock) {
    && TidyRows(rows) && CoveredRows(rows, clock)
    && RowsBytes(rows) <= MAX_BYTES && |rows| <= MAX_ROWS
    && RowsContent(rows) == Meaning(EventSet(ops, ops.Keys, graph, {}))
    && forall id :: id in ops ==> Accepted(ops[id], graph)
  }

  // ----- How a snapshot ends -----

  /** Everything the topic holds. */
  function Everything(view: D.View): set<Op> {
    D.Pending(view.ops, map[], view.clock)
  }

  /** A record the snapshot gets past. */
  ghost predicate Passes(s: Content, op: Op, graph: nat) {
    op.size <= D.PAGE_BYTES && Takes(s, op, graph)
  }

  ghost predicate AllPass(done: seq<Op>, graph: nat) {
    done != [] ==>
      var n := |done| - 1;
      AllPass(done[..n], graph) && Passes(Replay(EventsOf(done[..n], graph, {})), done[n], graph)
  }

  lemma AllPassLonger(done: seq<Op>, op: Op, graph: nat)
    ensures AllPass(done + [op], graph) <==> AllPass(done, graph) && Passes(Replay(EventsOf(done, graph, {})), op, graph)
    ensures Replay(EventsOf(done + [op], graph, {})) == Applied(Replay(EventsOf(done, graph, {})), op, graph)
  {
    assert (done + [op])[..|done|] == done;
    EventsOfLonger(done, op, graph, {});
    if Replayed(op, graph, {}) {
      ReplayLonger(EventsOf(done, graph, {}), EventOf(op));
    }
  }

  lemma {:induction false} AllPassAt(done: seq<Op>, n: nat, graph: nat)
    requires AllPass(done, graph) && n < |done|
    ensures AllPass(done[..n], graph) && Passes(Replay(EventsOf(done[..n], graph, {})), done[n], graph)
  {
    if n < |done| - 1 {
      AllPassAt(done[..|done| - 1], n, graph);
      assert done[..|done| - 1][..n] == done[..n];
    }
  }

  /** `op` comes right after `done` in the topic's order. */
  ghost predicate ComesNext(view: D.View, done: seq<Op>, op: Op) {
    D.Least(Everything(view) - Elements(done), op)
  }

  /** A deletion the snapshot can read. */
  predicate IsDelete(op: Op, graph: nat) {
    op.size <= D.PAGE_BYTES && Deletes(op, graph, {})
  }

  /**
   The one way a snapshot ends after getting past `done`: with the whole topic
   read, at a deletion, or at a record that is oversized, refused or too much.
   */
  ghost predicate EndsAfter(view: D.View, graph: nat, done: seq<Op>, r: Snapshot) {
    && LeadingPart(D.Before, Everything(view), done) && AllPass(done, graph)
    && match r
       case LiveRows(_, _) => Elements(done) == Everything(view)
       case Tombstoned => exists op :: ComesNext(view, done, op) && IsDelete(op, graph)
       case Failed => exists op :: ComesNext(view, done, op) && Blocks(done, op, graph)
  }

  ghost predicate Blocks(done: seq<Op>, op: Op, graph: nat) {
    !IsDelete(op, graph) && !Passes(Replay(EventsOf(done, graph, {})), op, graph)
  }

  lemma NextIsListed(view: D.View, done: seq<Op>, listed: seq<Op>)
    requires LeadingPart(D.Before, Everything(view), listed) && |done| < |listed| && done == listed[..|done|]
    ensures ComesNext(view, done, listed[|done|])
  {
    var n := |done|;
    LeadingPartPrefix(D.Before, Everything(view), listed, n + 1);
    PrefixSplitsLast(listed, n);
    D.LastIsLeast(Everything(view), listed[..n + 1]);
  }

  lemma NextIsOne(view: D.View, done: seq<Op>, a: Op, b: Op)
    requires ComesNext(view, done, a) && ComesNext(view, done, b)
    ensures a == b
  {
    D.BeforeIsStrict();
  }

  lemma LongerEndsAlike(view: D.View, graph: nat, left: seq<Op>, l: Snapshot, right: seq<Op>, r: Snapshot)
    requires EndsAfter(view, graph, left, l) && EndsAfter(view, graph, right, r) && |left| <= |right|
    ensures left == right && l.LiveRows? == r.LiveRows? && l.Tombstoned? == r.Tombstoned?
  {
    D.BeforeIsStrict();
    LeadingPartUnique(D.Before, Everything(view), left, right);
    if |left| < |right| {
      var next := right[|left|];
      NextIsListed(view, left, right);
      AllPassAt(right, |left|, graph);
      forall op | ComesNext(view, left, op) ensures op == next {
        NextIsOne(view, left, op, next);
      }
    } else {
      assert right[..|left|] == right;
      forall a, b | ComesNext(view, left, a) && ComesNext(view, left, b) ensures a == b {
        NextIsOne(view, left, a, b);
      }
    }
  }

  /** How a snapshot ends is decided by the topic alone. */
  lemma EndsOneWay(view: D.View, graph: nat, left: seq<Op>, l: Snapshot, right: seq<Op>, r: Snapshot)
    requires EndsAfter(view, graph, left, l) && EndsAfter(view, graph, right, r)
    ensures left == right && l.LiveRows? == r.LiveRows? && l.Tombstoned? == r.Tombstoned?
  {
    if |left| <= |right| {
      LongerEndsAlike(view, graph, left, l, right, r);
    } else {
      LongerEndsAlike(view, graph, right, r, left, l);
    }
  }

  // ----- The loop over pages -----

  /** How far a snapshot has read. */
  ghost predicate Reading(view: D.View, graph: nat, clock: Clock, rows: seq<Row>, done: seq<Op>) {
    && LeadingPart(D.Before, Everything(view), done) && AllPass(done, graph)
    && clock == D.Consume(map[], done)
    && RowsContent(rows) == Replay(EventsOf(done, graph, {}))
  }

  /** One record after all those before it. */
  method TakeNext(build: HistoryBuild, op: Op, graph: nat, ghost done: seq<Op>) returns (outcome: ApplyOutcome)
    requires build.Valid() && RowsContent(build.rows) == Replay(EventsOf(done, graph, {}))
    requires AllPass(done, graph) && op.size <= D.PAGE_BYTES
    modifies build
    ensures outcome.Continue? ==>
              && AllPass(done + [op], graph) && build.Valid()
              && RowsContent(build.rows) == Replay(EventsOf(done + [op], graph, {}))
    ensures outcome.Tombstone? <==> IsDelete(op, graph)
    ensures outcome.Refused? ==> Blocks(done, op, graph)
  {
    AllPassLonger(done, op, graph);
    outcome := ApplyHistory(build, op, graph);
  }

  /** Applies a page's records; `count` of them were taken. */
  method ApplyPage(build: HistoryBuild, records: seq<Op>, graph: nat, ghost done: seq<Op>)
    returns (outcome: ApplyOutcome, ghost count: nat)
    requires build.Valid() && RowsContent(build.rows) == Replay(EventsOf(done, graph, {}))
    requires AllPass(done, graph) && Bytes(records) <= D.PAGE_BYTES
    modifies build
    ensures count <= |records| && AllPass(done + records[..count], graph)
    ensures outcome.Continue? ==>
              && count == |records| && build.Valid()
              && RowsContent(build.rows) == Replay(EventsOf(done + records, graph, {}))
    ensures !outcome.Continue? ==> count < |records|
    ensures outcome.Tombstone? ==> IsDelete(records[count], graph)
    ensures outcome.Refused? ==> Blocks(done + records[..count], records[count], graph)
  {
    ghost var before := done;
    JoinedEnds(done, records);
    count := 0;
    for i := 0 to |records|
      invariant count == i && before == done + records[..i] && AllPass(before, graph)
      invariant build.Valid() && RowsContent(build.rows) == Replay(EventsOf(before, graph, {}))
    {
      SizeWithin(records, i);
      JoinedLonger(done, records, i);
      outcome := TakeNext(build, records[i], graph, before);
      if !outcome.Continue? {
        return;
      }
      before, count := before + [records[i]], i + 1;
    }
    return Continue, |records|;
  }

  /** The record a page stopped at comes next after all before it. */
  lemma StopsAt(view: D.View, done: seq<Op>, records: seq<Op>, count: nat)
    requires WellFormed(view.ops) && LeadingPart(D.Before, Everything(view), done)
    requires LeadingPart(D.Before, D.Pending(view.ops, D.Consume(map[], done), view.clock), records) && count < |records|
    ensures LeadingPart(D.Before, Everything(view), done + records[..count])
    ensures ComesNext(view, done + records[..count], records[count])
  {
    D.PagesJoin(view.ops, map[], view.clock, done, records);
    var listed, front := done + records, done + records[..count];
    assert listed[..|front|] == front && listed[|front|] == records[count];
    LeadingPartPrefix(D.Before, Everything(view), listed, |front|);
    NextIsListed(view, front, listed);
  }

  /** Reads the next page; only an oversized record keeps it from being read. */
  method NextPage(view: D.View, clock: Clock, ghost done: seq<Op>) returns (page: Option<D.Catchup>)
    requires D.ValidView(view) && LeadingPart(D.Before, Everything(view), done) && clock == D.Consume(map[], done)
    ensures page.Some? ==>
              P.IsPage(view, D.Cursor(view.epoch, view.genesis, clock, Some(view.clock)), view.clock, page.value)
    ensures page.None? ==> exists op :: ComesNext(view, done, op) && op.size > D.PAGE_BYTES
  {
    D.StaysOnTheWay(view.ops, map[], view.clock, done);
    D.ConsumeLeading(view.ops, map[], view.clock, done);
    var read := P.OpenPage(view, Some(D.Cursor(view.epoch, view.genesis, clock, Some(view.clock))));
    if read.Ok? {
      return Some(read.value);
    }
    match read.error {
      case Expired =>
      case Capacity =>
    }
    return None;
  }

  /** Whether a snapshot that got past `done` has ended, and how; nothing when there is more to read. */
  ghost predicate PageEnds(view: D.View, graph: nat, rows: seq<Row>, done: seq<Op>, end: Option<Snapshot>, clock: Clock) {
    match end
    case None => Reading(view, graph, clock, rows, done)
    case Some(r) => EndsAfter(view, graph, done, r) && (r.LiveRows? ==> Reading(view, graph, clock, rows, done))
  }

  /** One page of `history_snapshot`'s loop. */
  method ReadPage(view: D.View, graph: nat, build: HistoryBuild, clock: Clock, ghost done: seq<Op>)
    returns (end: Option<Snapshot>, clock': Clock, ghost done': seq<Op>)
    requires D.ValidView(view) && build.Valid() && Reading(view, graph, clock, build.rows, done)
    modifies build
    ensures PageEnds(view, graph, build.rows, done', end, clock')
    ensures end.None? || end.value.LiveRows? ==> build.Valid()
    ensures end.Some? && end.value.LiveRows? ==> end.value == LiveRows(build.rows, build.clock)
    ensures end.None? ==> Everything(view) - Elements(done') < Everything(view) - Elements(done)
  {
    clock', done' := clock, done;
    var paged := NextPage(view, clock, done);
    if paged.None? {
      return Some(Failed), clock, done;
    }
    var page := paged.value;
    var outcome;
    ghost var count;
    outcome, count := ApplyPage(build, page.records, graph, done);
    if !outcome.Continue? {
      StopsAt(view, done, page.records, count);
      return Some(if outcome.Tombstone? then Tombstoned else Failed), clock, done + page.records[..count];
    }
    PageTaken(view, done, page);
    assert page.records[..count] == page.records;
    clock', done' := D.Consume(clock, page.records), done + page.records;
    end := if page.more then None else Some(LiveRows(build.rows, build.clock));
  }

  lemma PageTaken(view: D.View, done: seq<Op>, page: D.Catchup)
    requires WellFormed(view.ops) && LeadingPart(D.Before, Everything(view), done)
    requires P.IsPage(view, D.Cursor(view.epoch, view.genesis, D.Consume(map[], done), Some(view.clock)), view.clock, page)
    ensures LeadingPart(D.Before, Everything(view), done + page.records)
    ensures D.Consume(map[], done + page.records) == D.Consume(D.Consume(map[], done), page.records)
    ensures page.more ==> Everything(view) - Elements(done + page.records) < Everything(view) - Elements(done)
    ensures !page.more ==> Elements(done + page.records) == Everything(view)
  {
    D.PagesJoin(view.ops, map[], view.clock, done, page.records);
    D.ConsumeLeading(view.ops, map[], view.clock, done);
    D.ConsumeLeading(view.ops, map[], view.clock, done + page.records);
    P.PageAdvances(view, D.Cursor(view.epoch, view.genesis, D.Consume(map[], done), Some(view.clock)), view.clock, page);
    if !page.more {
      D.WholeWhenNothingPending(view.ops, map[], view.clock, done + page.records);
    }
  }

  method ReadAll(view: D.View, graph: nat, build: HistoryBuild) returns (r: Snapshot, ghost done: seq<Op>)
    requires D.ValidView(view) && build.Valid() && build.rows == []
    modifies build
    ensures EndsAfter(view, graph, done, r)
    ensures r.LiveRows? ==>
              && build.Valid() && r == LiveRows(build.rows, build.clock)
              && Reading(view, graph, D.Consume(map[], done), r.rows, done)
  {
    var clock: Clock := map[];
    done := [];
    while true
      invariant build.Valid() && Reading(view, graph, clock, build.rows, done)
      decreases Everything(view) - Elements(done)
    {
      var end;
      end, clock, done := ReadPage(view, graph, build, clock, done);
      if end.Some? {
        return end.value, done;
      }
    }
  }

  /**
   The snapshot at the frontier is the order-free meaning of the whole topic. It
   fails, or finds a deletion, exactly where the topic's own records say so.
   */
  method HistorySnapshot(view: D.View, graph: nat) returns (r: Snapshot)
    requires D.ValidView(view)
    ensures exists done :: EndsAfter(view, graph, done, r)
    ensures r.LiveRows? ==> IsSnapshot(view.ops, graph, r.rows, r.clock)
  {
    var build := new HistoryBuild();
    ghost var done;
    r, done := ReadAll(view, graph, build);
    if r.LiveRows? {
      WholeTopic(view, graph, done, r.rows, r.clock);
    }
  }

  lemma WholeTopic(view: D.View, graph: nat, done: seq<Op>, rows: seq<Row>, clock: Clock)
    requires D.ValidView(view) && Reading(view, graph, D.Consume(map[], done), rows, done) && Elements(done) == Everything(view)
    requires TidyRows(rows) && CoveredRows(rows, clock) && RowsBytes(rows) <= MAX_BYTES && |rows| <= MAX_ROWS
    ensures IsSnapshot(view.ops, graph, rows, clock)
  {
    AllListed(view, done);
    forall id | id in view.ops ensures Accepted(view.ops[id], graph) {
      var i :| 0 <= i < |done| && done[i] == view.ops[id];
      AllPassAt(done, i, graph);
    }
    CausalOpsReplay(view.ops, done, graph, {});
  }

  lemma AllListed(view: D.View, done: seq<Op>)
    requires D.ValidView(view) && LeadingPart(D.Before, Everything(view), done) && Elements(done) == Everything(view)
    ensures forall id :: id in view.ops ==> view.ops[id] in done
    ensures CausalOps(view.ops, done) && Ids(done) == view.ops.Keys
  {
    forall id | id in view.ops ensures view.ops[id] in done {
      assert id in Covered(view.ops, view.clock);
      assert view.ops[id] in Elements(done);
    }
    forall i | 0 <= i < |done| ensures done[i].id in view.ops && view.ops[done[i].id] == done[i] {
      assert done[i] in Elements(done);
    }
    D.DeliveredIsCausal(view.ops, done);
  }

  // ----- The replays agree -----

  /**
   Whatever the two walks' orders, `history_content` at the topic's heads and
   `history_snapshot` at its frontier hold the same dots, as long as the ledger
   rejects no mutation.
   */
  lemma ReplaysAgree(ops: Ops, graph: nat, rejected: set<OpId>, quads: Quads, rows: seq<Row>, clock: Clock)
    requires WellFormed(ops) && IsSnapshot(ops, graph, rows, clock)
    requires QuadsContent(quads) == Meaning(EventSet(ops, PastOf(ops, Heads(ops)), graph, rejected))
    requires forall id :: id in ops && id in rejected ==> !Replayed(ops[id], graph, {})
    ensures QuadsContent(quads) == RowsContent(rows)
    ensures Tidy(quads) ==> forall q :: q in quads <==> exists i :: 0 <= i < |rows| && rows[i].quad == q
  {
    HeadsReachAll(ops);
    assert forall id :: id in ops ==> (Replayed(ops[id], graph, rejected) <==> Replayed(ops[id], graph, {}));
    assert EventSet(ops, ops.Keys, graph, rejected) == EventSet(ops, ops.Keys, graph, {});
    if Tidy(quads) {
      forall q ensures q in quads <==> exists i :: 0 <= i < |rows| && rows[i].quad == q {
        if q in quads {
          assert Live(q, quads[q][0]) in QuadsContent(quads);
        }
        if i :| 0 <= i < |rows| && rows[i].quad == q {
          assert Live(q, rows[i].dots[0]) in RowsContent(rows);
        }
      }
    }
  }
}

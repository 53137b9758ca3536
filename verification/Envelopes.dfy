/**
 `check_batch` and `check_snapshot`: one pass over an incoming envelope that
 parses each distinct term once and keeps running totals. `check` stands for
 `check_term`: the shape of a term, or nothing for a malformed one.
 */
module Envelopes {
  import opened Wrappers
  import opened Clocks
  import opened OrSet
  import opened Listings
  import opened Replays
  import opened Snapshots

  const MAX_DOTS: nat := 1048576
  const MAX_ACTORS: nat := 65536

  datatype Shape = Iri | Blank | Literal

  type Check = string -> Option<Shape>

  datatype Place = Subject | Predicate | Object

  predicate Allows(place: Place, shape: Shape) {
    match place
    case Subject => shape != Literal
    case Predicate => shape == Iri
    case Object => true
  }

  /** A term checked afresh in its place. */
  predicate TermOk(check: Check, term: string, place: Place) {
    check(term).Some? && Allows(place, check(term).value)
  }

  predicate QuadOk(check: Check, q: Quad) {
    TermOk(check, q.subject, Subject) && TermOk(check, q.predicate_, Predicate) && TermOk(check, q.object_, Object)
  }

  /** One quad of an envelope, with the dots or the witnessed clock it carries. */
  datatype Entry = Dotted(quad: Quad, dots: seq<Dot>) | Witnessing(quad: Quad, clock: Clock)

  function DotActors(ds: seq<Dot>): set<Actor> {
    set d | d in ds :: d.actor
  }

  datatype Totals = Totals(rows: nat, bytes: nat, dots: nat, actors: set<Actor>)

  function Plus(t: Totals, e: Entry): Totals {
    Totals(t.rows + 1, t.bytes + TermBytes(e.quad),
           if e.Dotted? then t.dots + |e.dots| else t.dots,
           t.actors + if e.Dotted? then DotActors(e.dots) else e.clock.Keys)
  }

  function Total(base: set<Actor>, es: seq<Entry>): Totals {
    if es == [] then Totals(0, 0, 0, base) else Plus(Total(base, es[..|es| - 1]), es[|es| - 1])
  }

  predicate Fits(t: Totals) {
    t.rows <= MAX_ROWS && t.bytes <= MAX_BYTES && t.dots <= MAX_DOTS && |t.actors| <= MAX_ACTORS
  }

  /** Every quad checked afresh, with nothing remembered between them. */
  predicate QuadsOk(check: Check, es: seq<Entry>) {
    es == [] || (QuadsOk(check, es[..|es| - 1]) && QuadOk(check, es[|es| - 1].quad))
  }

  /** Every quad is well formed, and the totals of the whole are within the limits. */
  predicate EntriesOk(check: Check, base: set<Actor>, es: seq<Entry>) {
    Fits(Total(base, es)) && QuadsOk(check, es)
  }

  lemma EntriesOkLonger(check: Check, base: set<Actor>, es: seq<Entry>, e: Entry)
    ensures Total(base, es + [e]) == Plus(Total(base, es), e)
    ensures EntriesOk(check, base, es + [e]) <==>
              EntriesOk(check, base, es) && QuadOk(check, e.quad) && Fits(Plus(Total(base, es), e))
  {
    var longer := es + [e];
    assert longer[..|es|] == es && longer[|es|] == e;
    SubsetCount(Total(base, es).actors, Plus(Total(base, es), e).actors);
  }

  /** A prefix that fails makes the whole envelope fail. */
  lemma {:induction false} EntriesOkPrefix(check: Check, base: set<Actor>, es: seq<Entry>, n: nat)
    requires n <= |es| && EntriesOk(check, base, es)
    ensures EntriesOk(check, base, es[..n])
  {
    if n < |es| {
      var m := |es| - 1;
      assert es == es[..m] + [es[m]];
      EntriesOkLonger(check, base, es[..m], es[m]);
      EntriesOkPrefix(check, base, es[..m], n);
      assert es[..m][..n] == es[..n];
    } else {
      assert es[..n] == es;
    }
  }

  class Envelope {
    const check: Check
    var shapes: map<string, Shape>
    var actors: set<Actor>
    var bytes: nat
    var rows: nat
    var dots: nat

    /** Remembered shapes are those a fresh check gives. */
    ghost predicate Faithful()
      reads this`shapes
    {
      forall t :: t in shapes ==> check(t) == Some(shapes[t])
    }

    ghost function Counted(): Totals
      reads this
    {
      Totals(rows, bytes, dots, actors)
    }

    constructor (check: Check)
      ensures this.check == check && Faithful() && Counted() == Totals(0, 0, 0, {})
    {
      this.check := check;
      shapes, actors, bytes, rows, dots := map[], {}, 0, 0, 0;
    }

    /** One term: counted, then looked up or checked and remembered. */
    method CheckTerm(term: string, place: Place) returns (ok: bool)
      requires Faithful()
      modifies this`shapes, this`bytes
      ensures Faithful() && bytes == old(bytes) + |term|
      ensures ok <==> bytes <= MAX_BYTES && TermOk(check, term, place)
    {
      bytes := bytes + |term|;
      if bytes > MAX_BYTES {
        return false;
      }
      if term !in shapes {
        var shape := check(term);
        if shape.None? {
          return false;
        }
        shapes := shapes[term := shape.value];
      }
      return Allows(place, shapes[term]);
    }

    /** One quad: three terms, each in its own place. */
    method CheckQuad(q: Quad) returns (ok: bool)
      requires Faithful()
      modifies this`shapes, this`bytes, this`rows
      ensures Faithful()
      ensures ok <==> QuadOk(check, q) && old(rows) < MAX_ROWS && old(bytes) + TermBytes(q) <= MAX_BYTES
      ensures ok ==> rows == old(rows) + 1 && bytes == old(bytes) + TermBytes(q)
    {
      rows := rows + 1;
      if rows > MAX_ROWS {
        return false;
      }
      var subjectOk := CheckTerm(q.subject, Subject);
      if !subjectOk {
        return false;
      }
      var predicateOk := CheckTerm(q.predicate_, Predicate);
      if !predicateOk {
        return false;
      }
      ok := CheckTerm(q.object_, Object);
    }

    /** The actors of a declared context. */
    method CheckClock(clock: Clock) returns (ok: bool)
      modifies this`actors
      ensures actors == old(actors) + clock.Keys && (ok <==> |actors| <= MAX_ACTORS)
    {
      actors := actors + clock.Keys;
      return |actors| <= MAX_ACTORS;
    }

    method CheckDots(ds: seq<Dot>) returns (ok: bool)
      modifies this`actors, this`dots
      ensures ok ==> dots == old(dots) + |ds| && actors == old(actors) + DotActors(ds)
      ensures ok <==> old(dots) + |ds| <= MAX_DOTS && |old(actors) + DotActors(ds)| <= MAX_ACTORS
    {
      dots := dots + |ds|;
      if dots > MAX_DOTS {
        return false;
      }
      actors := actors + DotActors(ds);
      return |actors| <= MAX_ACTORS;
    }

    method CheckEntry(e: Entry) returns (ok: bool)
      requires Faithful() && Fits(Counted())
      modifies this
      ensures Faithful()
      ensures ok <==> QuadOk(check, e.quad) && Fits(Plus(old(Counted()), e))
      ensures ok ==> Counted() == Plus(old(Counted()), e)
    {
      ok := CheckQuad(e.quad);
      if ok {
        match e {
          case Dotted(_, ds) => ok := CheckDots(ds);
          case Witnessing(_, clock) => ok := CheckClock(clock);
        }
      }
    }
  }

  // ----- Batches -----

  datatype QuadOp = AddQuad(quad: Quad, dot: Dot) | RemoveQuad(quad: Quad, witnessed: Clock)

  datatype Batch = Batch(graph: string, actor: Actor, counter: nat, base: Clock, ops: seq<QuadOp>)

  function Identity(batch: Batch): Dot {
    Dot(batch.actor, batch.counter)
  }

  /** `missing_dots` is empty. */
  predicate ClockWithin(claim: Clock, known: Clock) {
    forall a :: a in claim ==> Contains(known, Dot(a, claim[a]))
  }

  predicate OpOk(batch: Batch, op: QuadOp) {
    match op
    case AddQuad(_, dot) => dot == Identity(batch)
    case RemoveQuad(_, witnessed) => ClockWithin(witnessed, batch.base)
  }

  function OpEntry(op: QuadOp): Entry {
    match op
    case AddQuad(q, dot) => Dotted(q, [dot])
    case RemoveQuad(q, witnessed) => Witnessing(q, witnessed)
  }

  function OpEntries(ops: seq<QuadOp>): (es: seq<Entry>)
    ensures |es| == |ops| && forall i :: 0 <= i < |ops| ==> es[i] == OpEntry(ops[i])
  {
    if ops == [] then [] else OpEntries(ops[..|ops| - 1]) + [OpEntry(ops[|ops| - 1])]
  }

  /** Adds carry the batch's own event and removes witness only its base clock. */
  ghost predicate OpsOk(batch: Batch, n: nat)
    requires n <= |batch.ops|
  {
    forall i :: 0 <= i < n ==> OpOk(batch, batch.ops[i])
  }

  lemma OpsOkNext(batch: Batch, n: nat)
    requires n < |batch.ops|
    ensures OpsOk(batch, n + 1) <==> OpsOk(batch, n) && OpOk(batch, batch.ops[n])
    ensures OpsOk(batch, |batch.ops|) ==> OpOk(batch, batch.ops[n])
  {}

  /** What `check_batch` accepts. */
  ghost predicate BatchOk(check: Check, batch: Batch) {
    check(batch.graph).Some? && EntriesOk(check, batch.base.Keys, OpEntries(batch.ops)) && OpsOk(batch, |batch.ops|)
  }

  lemma FailingPrefix(check: Check, base: set<Actor>, es: seq<Entry>, n: nat)
    requires n <= |es| && !EntriesOk(check, base, es[..n])
    ensures !EntriesOk(check, base, es)
  {
    if EntriesOk(check, base, es) {
      EntriesOkPrefix(check, base, es, n);
    }
  }

  /** The next entry of an envelope whose first `i` passed. */
  method NextEntry(envelope: Envelope, e: Entry, ghost base: set<Actor>, ghost es: seq<Entry>, ghost i: nat)
    returns (ok: bool)
    requires i < |es| && e == es[i] && envelope.Faithful()
    requires envelope.Counted() == Total(base, es[..i]) && EntriesOk(envelope.check, base, es[..i])
    modifies envelope
    ensures envelope.Faithful()
    ensures if ok then
              envelope.Counted() == Total(base, es[..i + 1]) && EntriesOk(envelope.check, base, es[..i + 1])
            else
              !EntriesOk(envelope.check, base, es)
  {
    assert es[..i] + [es[i]] == es[..i + 1];
    EntriesOkLonger(envelope.check, base, es[..i], es[i]);
    ok := envelope.CheckEntry(e);
    if !ok {
      FailingPrefix(envelope.check, base, es, i + 1);
    }
  }

  /** An envelope that has counted its declared clock. */
  method Opened(check: Check, clock: Clock, ghost es: seq<Entry>) returns (envelope: Envelope, ok: bool)
    ensures fresh(envelope) && envelope.check == check && envelope.Faithful()
    ensures if ok then
              envelope.Counted() == Total(clock.Keys, es[..0]) && EntriesOk(check, clock.Keys, es[..0])
            else
              !EntriesOk(check, clock.Keys, es)
  {
    envelope := new Envelope(check);
    assert {} + clock.Keys == clock.Keys;
    ok := envelope.CheckClock(clock);
    if !ok {
      FailingPrefix(check, clock.Keys, es, 0);
    }
  }

  /** The memoizing, early-stopping check gives the verdict of checking everything afresh. */
  method CheckBatch(check: Check, batch: Batch) returns (ok: bool)
    ensures ok <==> BatchOk(check, batch)
  {
    if check(batch.graph).None? {
      return false;
    }
    ghost var es := OpEntries(batch.ops);
    var envelope, started := Opened(check, batch.base, es);
    if !started {
      return false;
    }
    for i := 0 to |batch.ops|
      invariant fresh(envelope) && envelope.check == check && envelope.Faithful()
      invariant envelope.Counted() == Total(batch.base.Keys, es[..i]) && EntriesOk(check, batch.base.Keys, es[..i])
      invariant OpsOk(batch, i)
    {
      OpsOkNext(batch, i);
      var entryOk := NextEntry(envelope, OpEntry(batch.ops[i]), batch.base.Keys, es, i);
      if !entryOk || !OpOk(batch, batch.ops[i]) {
        return false;
      }
    }
    assert es[..|es|] == es;
    return true;
  }

  // ----- Acceptance, spelled out -----

  /** The number of inserts. */
  function AddCount(ops: seq<QuadOp>): nat {
    if ops == [] then 0 else AddCount(ops[..|ops| - 1]) + if ops[|ops| - 1].AddQuad? then 1 else 0
  }

  function QuadBytes(ops: seq<QuadOp>): nat {
    if ops == [] then 0 else QuadBytes(ops[..|ops| - 1]) + TermBytes(ops[|ops| - 1].quad)
  }

  /** A subject that is no literal, an IRI for a predicate, and any object. */
  predicate IsLegal(check: Check, q: Quad) {
    && (check(q.subject) == Some(Iri) || check(q.subject) == Some(Blank))
    && check(q.predicate_) == Some(Iri) && check(q.object_).Some?
  }

  /** An insert under the batch's own dot, or a delete that witnesses nothing beyond its base clock. */
  predicate IsHonest(batch: Batch, op: QuadOp) {
    match op
    case AddQuad(_, dot) => dot.actor == batch.actor && dot.counter == batch.counter
    case RemoveQuad(_, witnessed) => forall a :: a in witnessed ==> a in batch.base && witnessed[a] <= batch.base[a]
  }

  lemma {:induction false} LegalIff(check: Check, ops: seq<QuadOp>)
    ensures QuadsOk(check, OpEntries(ops)) <==> forall i :: 0 <= i < |ops| ==> IsLegal(check, ops[i].quad)
  {
    if ops != [] {
      var n := |ops| - 1;
      LegalIff(check, ops[..n]);
      assert OpEntries(ops)[..n] == OpEntries(ops[..n]);
      assert OpEntries(ops)[n].quad == ops[n].quad;
    }
  }

  /** The totals of an honest batch. */
  function HonestTotals(batch: Batch, ops: seq<QuadOp>): Totals {
    Totals(|ops|, QuadBytes(ops), AddCount(ops), batch.base.Keys + if AddCount(ops) > 0 then {batch.actor} else {})
  }

  lemma OneMoreOp(batch: Batch, ops: seq<QuadOp>, op: QuadOp)
    requires IsHonest(batch, op)
    ensures Plus(HonestTotals(batch, ops), OpEntry(op)) == HonestTotals(batch, ops + [op])
  {
    assert (ops + [op])[..|ops|] == ops;
    var more := HonestTotals(batch, ops + [op]);
    if op.AddQuad? {
      assert DotActors([op.dot]) == {batch.actor};
    } else {
      assert op.witnessed.Keys <= batch.base.Keys;
      assert HonestTotals(batch, ops).actors + op.witnessed.Keys == more.actors;
    }
  }

  lemma {:induction false} BatchTotal(batch: Batch, ops: seq<QuadOp>)
    requires forall i :: 0 <= i < |ops| ==> IsHonest(batch, ops[i])
    ensures Total(batch.base.Keys, OpEntries(ops)) == HonestTotals(batch, ops)
  {
    if ops != [] {
      var n := |ops| - 1;
      var front := ops[..n];
      BatchTotal(batch, front);
      assert OpEntries(ops)[..n] == OpEntries(front) && OpEntries(ops)[n] == OpEntry(ops[n]);
      assert front + [ops[n]] == ops;
      OneMoreOp(batch, front, ops[n]);
    }
  }

  /**
   A batch is accepted exactly when its graph and terms are legal, every insert is
   under its own dot, every delete within its base clock, and its rows, bytes,
   inserts and actors are within the limits.
   */
  lemma BatchOkIff(check: Check, batch: Batch)
    ensures BatchOk(check, batch) <==>
              && check(batch.graph).Some?
              && (forall i :: 0 <= i < |batch.ops| ==> IsLegal(check, batch.ops[i].quad) && IsHonest(batch, batch.ops[i]))
              && |batch.ops| <= MAX_ROWS && QuadBytes(batch.ops) <= MAX_BYTES && AddCount(batch.ops) <= MAX_DOTS
              && |batch.base.Keys + if AddCount(batch.ops) > 0 then {batch.actor} else {}| <= MAX_ACTORS
  {
    LegalIff(check, batch.ops);
    OpsHonest(batch);
    if OpsOk(batch, |batch.ops|) {
      BatchTotal(batch, batch.ops);
    }
  }

  lemma OpsHonest(batch: Batch)
    ensures OpsOk(batch, |batch.ops|) <==> forall i :: 0 <= i < |batch.ops| ==> IsHonest(batch, batch.ops[i])
  {
    forall i | 0 <= i < |batch.ops| ensures OpOk(batch, batch.ops[i]) <==> IsHonest(batch, batch.ops[i]) {
      HonestIff(batch, batch.ops[i]);
    }
  }

  lemma HonestIff(batch: Batch, op: QuadOp)
    ensures OpOk(batch, op) <==> IsHonest(batch, op)
  {}

  // ----- What an accepted batch can do -----

  function ApplyOp(s: Content, op: QuadOp): Content {
    match op
    case AddQuad(q, d) => s + {Live(q, d)}
    case RemoveQuad(q, witnessed) => set x | x in s && !(x.quad == q && Contains(witnessed, x.dot))
  }

  function ApplyOps(s: Content, ops: seq<QuadOp>): Content {
    if ops == [] then s else ApplyOp(ApplyOps(s, ops[..|ops| - 1]), ops[|ops| - 1])
  }

  lemma WithinCovers(claim: Clock, known: Clock, d: Dot)
    requires ClockWithin(claim, known) && Contains(claim, d)
    ensures Contains(known, d)
  {
    assert Contains(known, Dot(d.actor, claim[d.actor]));
  }

  lemma {:induction false} OpsTouchOnlyTheirOwn(batch: Batch, ops: seq<QuadOp>, s: Content, x: Live)
    requires forall i :: 0 <= i < |ops| ==> OpOk(batch, ops[i])
    ensures x in s && x !in ApplyOps(s, ops) ==> Contains(batch.base, x.dot)
    ensures x !in s && x in ApplyOps(s, ops) ==> x.dot == Identity(batch)
  {
    if ops != [] {
      var n := |ops| - 1;
      OpsTouchOnlyTheirOwn(batch, ops[..n], s, x);
      assert OpOk(batch, ops[n]);
      if ops[n].RemoveQuad? && Contains(ops[n].witnessed, x.dot) {
        WithinCovers(ops[n].witnessed, batch.base, x.dot);
      }
    }
  }

  /** Applying an accepted batch to any state drops only dots under its base clock and adds only its own event's dot. */
  lemma AcceptedBatchKeepsConcurrent(check: Check, batch: Batch, s: Content)
    requires BatchOk(check, batch)
    ensures forall x :: x in s && !Contains(batch.base, x.dot) ==> x in ApplyOps(s, batch.ops)
    ensures forall x :: x in ApplyOps(s, batch.ops) && x !in s ==> x.dot == Identity(batch)
  {
    forall x: Live
      ensures x in s && x !in ApplyOps(s, batch.ops) ==> Contains(batch.base, x.dot)
      ensures x !in s && x in ApplyOps(s, batch.ops) ==> x.dot == Identity(batch)
    {
      OpsTouchOnlyTheirOwn(batch, batch.ops, s, x);
    }
  }

  // ----- Snapshots -----

  function RowEntries(rows: seq<Row>): (es: seq<Entry>)
    ensures |es| == |rows| && forall i :: 0 <= i < |rows| ==> es[i] == Dotted(rows[i].quad, rows[i].dots)
  {
    if rows == [] then []
    else
      var n := |rows| - 1;
      RowEntries(rows[..n]) + [Dotted(rows[n].quad, rows[n].dots)]
  }

  /** What `check_snapshot` accepts. */
  ghost predicate SnapshotOk(check: Check, graph: string, rows: seq<Row>, clock: Clock) {
    && check(graph).Some?
    && EntriesOk(check, clock.Keys, RowEntries(rows))
    && TidyRows(rows) && CoveredRows(rows, clock)
  }

  /** The quads of the first `n` rows. */
  ghost function RowKeys(rows: seq<Row>, n: nat): set<Quad>
    requires n <= |rows|
  {
    if n == 0 then {} else RowKeys(rows, n - 1) + {rows[n - 1].quad}
  }

  ghost predicate DotsFit(dots: seq<Dot>, clock: Clock) {
    dots == [] || (var n := |dots| - 1; DotsFit(dots[..n], clock) && dots[n] !in dots[..n] && Contains(clock, dots[n]))
  }

  lemma {:induction false} DotsFitMeans(dots: seq<Dot>, clock: Clock)
    ensures DotsFit(dots, clock) <==> NoRepeats(dots) && forall d :: d in dots ==> Contains(clock, d)
  {
    if dots != [] {
      var n := |dots| - 1;
      DotsFitMeans(dots[..n], clock);
      assert dots == dots[..n] + [dots[n]];
    }
  }

  ghost predicate RowFits(row: Row, keys: set<Quad>, clock: Clock) {
    row.dots != [] && row.quad !in keys && DotsFit(row.dots, clock)
  }

  ghost predicate RowsFit(rows: seq<Row>, n: nat, clock: Clock)
    requires n <= |rows|
  {
    n == 0 || (RowsFit(rows, n - 1, clock) && RowFits(rows[n - 1], RowKeys(rows, n - 1), clock))
  }

  lemma {:induction false} RowKeysAre(rows: seq<Row>, n: nat, q: Quad)
    requires n <= |rows|
    ensures q in RowKeys(rows, n) <==> exists j :: 0 <= j < n && rows[j].quad == q
  {
    if n > 0 {
      RowKeysAre(rows, n - 1, q);
    }
  }

  /** Row by row is all rows at once. */
  lemma {:induction false} RowsFitPrefix(rows: seq<Row>, n: nat, clock: Clock)
    requires n <= |rows|
    ensures RowsFit(rows, n, clock) <==> TidyRows(rows[..n]) && CoveredRows(rows[..n], clock)
  {
    if n > 0 {
      RowsFitPrefix(rows, n - 1, clock);
      DotsFitMeans(rows[n - 1].dots, clock);
      RowKeysAre(rows, n - 1, rows[n - 1].quad);
      var shorter, longer, last := rows[..n - 1], rows[..n], rows[n - 1];
      assert longer[n - 1] == last && forall j :: 0 <= j < n - 1 ==> longer[j] == shorter[j] == rows[j];
      if TidyRows(longer) && CoveredRows(longer, clock) {
        assert TidyRows(shorter) && CoveredRows(shorter, clock);
      }
    }
  }

  lemma {:induction false} FailingRow(rows: seq<Row>, n: nat, clock: Clock)
    requires n <= |rows| && !RowsFit(rows, n, clock)
    ensures !RowsFit(rows, |rows|, clock)
    decreases |rows| - n
  {
    if n < |rows| {
      FailingRow(rows, n + 1, clock);
    }
  }

  /** One row: a live quad with a dot, not met before, no dot repeated, all dots under the clock. */
  method CheckRow(row: Row, keys: set<Quad>, clock: Clock) returns (ok: bool)
    ensures ok <==> RowFits(row, keys, clock)
  {
    if row.dots == [] || row.quad in keys {
      return false;
    }
    var dots := row.dots;
    DotsFitMeans(dots, clock);
    var seen: set<Dot> := {};
    for i := 0 to |dots|
      invariant seen == set d | d in dots[..i]
      invariant NoRepeats(dots[..i]) && forall d :: d in dots[..i] ==> Contains(clock, d)
    {
      assert dots[..i + 1] == dots[..i] + [dots[i]];
      if dots[i] in seen || !Contains(clock, dots[i]) {
        return false;
      }
      seen := seen + {dots[i]};
    }
    assert dots[..|dots|] == dots;
    return true;
  }

  ghost predicate RowsOk(check: Check, rows: seq<Row>, clock: Clock, n: nat)
    requires n <= |rows|
  {
    EntriesOk(check, clock.Keys, RowEntries(rows)[..n]) && RowsFit(rows, n, clock)
  }

  /** The totals of the clock and the first `n` rows. */
  ghost function TotalOf(rows: seq<Row>, clock: Clock, n: nat): Totals
    requires n <= |rows|
  {
    Total(clock.Keys, RowEntries(rows)[..n])
  }

  method NextRow(envelope: Envelope, rows: seq<Row>, clock: Clock, i: nat, keys: set<Quad>)
    returns (ok: bool, met: set<Quad>)
    requires i < |rows| && RowsOk(envelope.check, rows, clock, i) && keys == RowKeys(rows, i)
    requires envelope.Faithful() && envelope.Counted() == TotalOf(rows, clock, i)
    modifies envelope
    ensures envelope.Faithful()
    ensures if ok then
              RowsOk(envelope.check, rows, clock, i + 1) && met == RowKeys(rows, i + 1) && envelope.Counted() == TotalOf(rows, clock, i + 1)
            else !RowsOk(envelope.check, rows, clock, |rows|)
  {
    ghost var es := RowEntries(rows);
    assert es[..|rows|] == es;
    ok := NextEntry(envelope, Dotted(rows[i].quad, rows[i].dots), clock.Keys, es, i);
    if ok {
      ok := CheckRow(rows[i], keys, clock);
      if !ok {
        FailingRow(rows, i + 1, clock);
      }
    }
    met := keys + {rows[i].quad};
  }

  method OpenRows(check: Check, rows: seq<Row>, clock: Clock) returns (envelope: Envelope, ok: bool)
    ensures fresh(envelope) && envelope.check == check && envelope.Faithful()
    ensures if ok then RowsOk(check, rows, clock, 0) && envelope.Counted() == TotalOf(rows, clock, 0) else !RowsOk(check, rows, clock, |rows|)
  {
    assert RowEntries(rows)[..|rows|] == RowEntries(rows);
    envelope, ok := Opened(check, clock, RowEntries(rows));
  }

  method CheckEach(envelope: Envelope, rows: seq<Row>, clock: Clock) returns (ok: bool)
    requires envelope.Faithful() && RowsOk(envelope.check, rows, clock, 0) && envelope.Counted() == TotalOf(rows, clock, 0)
    modifies envelope
    ensures ok <==> RowsOk(envelope.check, rows, clock, |rows|)
  {
    var keys: set<Quad> := {};
    for i := 0 to |rows|
      invariant envelope.Faithful() && RowsOk(envelope.check, rows, clock, i)
      invariant keys == RowKeys(rows, i) && envelope.Counted() == TotalOf(rows, clock, i)
    {
      ok, keys := NextRow(envelope, rows, clock, i, keys);
      if !ok {
        return;
      }
    }
    return true;
  }

  method CheckRows(check: Check, rows: seq<Row>, clock: Clock) returns (ok: bool)
    ensures ok <==> RowsOk(check, rows, clock, |rows|)
  {
    var envelope, started := OpenRows(check, rows, clock);
    if !started {
      return false;
    }
    ok := CheckEach(envelope, rows, clock);
  }

  method CheckSnapshot(check: Check, graph: string, rows: seq<Row>, clock: Clock) returns (ok: bool)
    ensures ok <==> SnapshotOk(check, graph, rows, clock)
  {
    RowsFitPrefix(rows, |rows|, clock);
    assert rows[..|rows|] == rows && RowEntries(rows)[..|rows|] == RowEntries(rows);
    if check(graph).None? {
      return false;
    }
    ok := CheckRows(check, rows, clock);
  }

  // ----- Histories as snapshots -----

  function RowsDots(rows: seq<Row>): nat {
    if rows == [] then 0 else RowsDots(rows[..|rows| - 1]) + |rows[|rows| - 1].dots|
  }

  lemma {:induction false} RowsQuadsOk(check: Check, rows: seq<Row>)
    requires forall i :: 0 <= i < |rows| ==> QuadOk(check, rows[i].quad)
    ensures QuadsOk(check, RowEntries(rows))
  {
    if rows != [] {
      var n := |rows| - 1;
      RowsQuadsOk(check, rows[..n]);
      assert RowEntries(rows)[..n] == RowEntries(rows[..n]);
    }
  }

  lemma {:induction false} RowTotals(rows: seq<Row>, clock: Clock)
    requires CoveredRows(rows, clock)
    ensures
      var t := Total(clock.Keys, RowEntries(rows));
      t.rows == |rows| && t.bytes + DOT_BYTES * t.dots == RowsBytes(rows) && t.dots == RowsDots(rows) && t.actors == clock.Keys
  {
    if rows != [] {
      var n := |rows| - 1;
      assert CoveredRows(rows[..n], clock) by {
        assert forall i :: 0 <= i < n ==> rows[..n][i] == rows[i];
      }
      RowTotals(rows[..n], clock);
      assert RowEntries(rows)[..n] == RowEntries(rows[..n]);
      assert DotActors(rows[n].dots) <= clock.Keys by {
        assert forall d :: d in rows[n].dots ==> Contains(clock, d);
      }
    }
  }

  lemma FitsIff(t: Totals, dots: nat, actors: set<Actor>)
    requires t.rows <= MAX_ROWS && t.bytes + DOT_BYTES * t.dots <= MAX_BYTES && t.dots == dots && t.actors == actors
    ensures Fits(t) <==> dots <= MAX_DOTS && |actors| <= MAX_ACTORS
  {}

  /**
   A replayed history that stays within its own row and byte limits passes
   `check_snapshot` exactly when it also meets the two limits the replay does not
   watch: the number of dots and the number of actors.
   */
  lemma {:induction false} HistoryPassesSnapshotIff(check: Check, graph: string, rows: seq<Row>, clock: Clock)
    requires TidyRows(rows) && CoveredRows(rows, clock) && RowsBytes(rows) <= MAX_BYTES && |rows| <= MAX_ROWS
    requires check(graph).Some? && forall i :: 0 <= i < |rows| ==> QuadOk(check, rows[i].quad)
    ensures SnapshotOk(check, graph, rows, clock) <==> RowsDots(rows) <= MAX_DOTS && |clock.Keys| <= MAX_ACTORS
  {
    RowTotals(rows, clock);
    RowsQuadsOk(check, rows);
    FitsIff(Total(clock.Keys, RowEntries(rows)), RowsDots(rows), clock.Keys);
  }
}

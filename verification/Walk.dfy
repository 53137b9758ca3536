/** `history_page`: the newest-first walk over a graph's history. */
module Walk {
  import opened Wrappers
  import opened Topics
  import opened Listings

  datatype HistoryError = InvalidRequest | OperationLimit | ByteLimit | Unavailable | DeletedGraph

  /** `next` is empty once the walk has reached the end. */
  datatype Page = Page(entries: seq<Op>, next: set<OpId>)

  /** The walk's order: higher generation first, then higher id. */
  predicate Newer(a: Op, b: Op) {
    a.generation > b.generation || (a.generation == b.generation && a.id > b.id)
  }

  lemma NewerIsStrict()
    ensures StrictOrder(Newer)
  {
  }

  function Select(ops: Ops, ids: set<OpId>): set<Op> {
    set id | id in ids && id in ops :: ops[id]
  }

  function DepsOf(entries: seq<Op>): set<OpId> {
    if entries == [] then {} else DepsOf(entries[..|entries| - 1]) + entries[|entries| - 1].deps
  }

  /** The operations a walk has met but not listed. */
  function Open(heads: set<OpId>, entries: seq<Op>): set<OpId> {
    heads + DepsOf(entries) - Ids(entries)
  }

  /** What a page promises about the walk from `heads`. */
  ghost predicate IsPage(ops: Ops, heads: set<OpId>, limit: nat, page: Page)
    requires Acyclic(ops) && heads <= ops.Keys
  {
    && page.next <= ops.Keys && page.next == Open(heads, page.entries)
    && LeadingPart(Newer, Select(ops, PastOf(ops, heads)), page.entries)
    && Select(ops, PastOf(ops, page.next)) == Select(ops, PastOf(ops, heads)) - Elements(page.entries)
    && |page.entries| <= limit
    && (page.next != {} ==> |page.entries| == limit)
  }

  /** The position of the newest operation in a heap. */
  method Newest(ops: Ops, pending: seq<OpId>) returns (top: nat)
    requires Acyclic(ops) && pending != [] && forall id :: id in pending ==> id in ops
    ensures top < |pending|
    ensures forall k :: 0 <= k < |pending| ==> pending[k] == pending[top] || Newer(ops[pending[top]], ops[pending[k]])
  {
    top := 0;
    for i := 1 to |pending|
      invariant top < |pending|
      invariant forall k :: 0 <= k < i ==> pending[k] == pending[top] || Newer(ops[pending[top]], ops[pending[k]])
    {
      if Newer(ops[pending[i]], ops[pending[top]]) {
        top := i;
      }
    }
  }

  method PopNewest(ops: Ops, pending: seq<OpId>) returns (id: OpId, rest: seq<OpId>)
    requires Acyclic(ops) && pending != [] && forall p :: p in pending ==> p in ops
    ensures id in pending && |rest| < |pending|
    ensures forall p :: p in pending ==> p == id || Newer(ops[id], ops[p])
    ensures forall p :: p in pending <==> p == id || p in rest
  {
    var top := Newest(ops, pending);
    id := pending[top];
    rest := pending[..top] + pending[top + 1..];
    RemoveAt(pending, top);
  }

  method ListSet(ids: set<OpId>) returns (list: seq<OpId>)
    ensures forall id :: id in list <==> id in ids
  {
    list := [];
    var left := ids;
    while left != {}
      invariant left <= ids
      invariant forall id :: id in list <==> id in ids - left
    {
      var id :| id in left;
      list := list + [id];
      left := left - {id};
    }
  }

  /** Whether some leading part of at most `limit` operations is larger than `maxBytes`. */
  ghost predicate Overflows(ops: Ops, heads: set<OpId>, limit: nat, maxBytes: nat)
    requires Acyclic(ops) && heads <= ops.Keys
  {
    exists os :: LeadingPart(Newer, Select(ops, PastOf(ops, heads)), os) && |os| <= limit && Bytes(os) > maxBytes
  }

  ghost predicate AreOps(ops: Ops, entries: seq<Op>) {
    forall i :: 0 <= i < |entries| ==> entries[i].id in ops && ops[entries[i].id] == entries[i]
  }

  /** No entry is older than an operation on the heap. */
  ghost predicate Ahead(ops: Ops, entries: seq<Op>, pending: seq<OpId>)
    requires forall p :: p in pending ==> p in ops
  {
    forall p, i :: p in pending && 0 <= i < |entries| ==> p == entries[i].id || Newer(entries[i], ops[p])
  }

  /** What was met is on the heap or listed. */
  ghost predicate Met(heads: set<OpId>, entries: seq<Op>, pending: seq<OpId>) {
    forall p :: p in heads + DepsOf(entries) <==> p in pending || p in Ids(entries)
  }

  /** How far a walk has come: what is listed, and that the heap holds whatever else was met. */
  ghost predicate Walked(ops: Ops, heads: set<OpId>, entries: seq<Op>, pending: seq<OpId>)
    requires Acyclic(ops) && heads <= ops.Keys
  {
    && (forall p :: p in pending ==> p in ops)
    && AreOps(ops, entries) && Ids(entries) <= PastOf(ops, heads)
    && Sorted(Newer, entries) && Ahead(ops, entries, pending)
    && (forall p :: p in pending ==> p in PastOf(ops, heads))
    && Met(heads, entries, pending)
  }

  /** One turn of the walk's loop: pops the newest heap entry and lists it unless it is listed already. */
  method ListNewest(ops: Ops, ghost heads: set<OpId>, entries: seq<Op>, seen: set<OpId>, pending: seq<OpId>)
    returns (op: Option<Op>, after: seq<OpId>)
    requires Acyclic(ops) && heads <= ops.Keys && Walked(ops, heads, entries, pending)
    requires seen == Ids(entries) && pending != []
    ensures op.None? ==> Walked(ops, heads, entries, after) && |after| < |pending|
    ensures op.Some? ==> Walked(ops, heads, entries + [op.value], after) && op.value.id in ops.Keys - seen
  {
    var id, rest := PopNewest(ops, pending);
    if id in seen {
      WalkSkip(ops, heads, entries, pending, rest, id);
      return None, rest;
    }
    var parents := ListSet(ops[id].deps);
    WalkStep(ops, heads, entries, pending, rest, parents, id);
    return Some(ops[id]), rest + parents;
  }

  /** One turn with its bookkeeping. */
  method ListOne(ops: Ops, ghost heads: set<OpId>, entries: seq<Op>, seen: set<OpId>, bytes: nat, pending: seq<OpId>)
    returns (entries': seq<Op>, seen': set<OpId>, bytes': nat, pending': seq<OpId>)
    requires Acyclic(ops) && heads <= ops.Keys && Walked(ops, heads, entries, pending)
    requires seen == Ids(entries) && bytes == Bytes(entries) && pending != []
    ensures Walked(ops, heads, entries', pending') && seen' == Ids(entries') && bytes' == Bytes(entries')
    ensures |entries'| <= |entries| + 1
    ensures if entries' == entries then seen' == seen && bytes' == bytes && |pending'| < |pending|
            else ops.Keys - seen' < ops.Keys - seen
  {
    var op;
    op, pending' := ListNewest(ops, heads, entries, seen, pending);
    entries', seen', bytes' := entries, seen, bytes;
    if op.Some? {
      IdsOfLonger(entries, op.value);
      BytesOfLonger(entries, op.value);
      entries', seen', bytes' := entries + [op.value], seen + {op.value.id}, bytes + op.value.size;
    }
  }

  /** The walk's loop: runs until the page is full, the heap is empty or the bytes run out. */
  method Collect(ops: Ops, heads: set<OpId>, limit: nat, maxBytes: nat)
    returns (entries: seq<Op>, pending: seq<OpId>, over: bool)
    requires Acyclic(ops) && heads <= ops.Keys
    ensures Walked(ops, heads, entries, pending)
    ensures |entries| <= limit && (over <==> Bytes(entries) > maxBytes)
    ensures over || |entries| == limit || pending == []
  {
    pending := ListSet(heads);
    var seen: set<OpId> := {};
    var bytes := 0;
    entries, over := [], false;
    WalkStart(ops, heads, pending);
    while !over && |entries| < limit && pending != []
      invariant Walked(ops, heads, entries, pending)
      invariant seen == Ids(entries) && bytes == Bytes(entries)
      invariant |entries| <= limit && (over <==> bytes > maxBytes)
      decreases ops.Keys - seen, |pending|
    {
      entries, seen, bytes, pending := ListOne(ops, heads, entries, seen, bytes, pending);
      over := bytes > maxBytes;
    }
  }

  method HistoryPage(ops: Ops, heads: set<OpId>, limit: nat, maxBytes: nat) returns (r: Result<Page, HistoryError>)
    requires Acyclic(ops)
    ensures r == Err(OperationLimit) <==> |heads| > limit
    ensures r == Err(Unavailable) <==> |heads| <= limit && !(heads <= ops.Keys)
    ensures r == Err(ByteLimit) <==> |heads| <= limit && heads <= ops.Keys && Overflows(ops, heads, limit, maxBytes)
    ensures r.Ok? <==> |heads| <= limit && heads <= ops.Keys && !Overflows(ops, heads, limit, maxBytes)
    ensures r.Ok? ==> IsPage(ops, heads, limit, r.value)
  {
    if |heads| > limit {
      return Err(OperationLimit);
    }
    if !(heads <= ops.Keys) {
      return Err(Unavailable);
    }
    var entries, pending, over := Collect(ops, heads, limit, maxBytes);
    LeadingEntries(ops, heads, entries, pending);
    if over {
      return Err(ByteLimit);
    }
    var next := set p | p in pending && p !in Ids(entries);
    assert next == Open(heads, entries);
    OpenPast(ops, heads, entries);
    NoOverflow(ops, heads, limit, maxBytes, Page(entries, next));
    return Ok(Page(entries, next));
  }

  lemma RemoveAt(s: seq<OpId>, k: nat)
    requires k < |s|
    ensures forall x :: x in s <==> x == s[k] || x in s[..k] + s[k + 1..]
  {
    assert s == s[..k] + [s[k]] + s[k + 1..];
  }

  lemma DepsOfLonger(entries: seq<Op>, op: Op)
    ensures DepsOf(entries + [op]) == DepsOf(entries) + op.deps
  {
    assert (entries + [op])[..|entries|] == entries;
  }

  lemma WalkStart(ops: Ops, heads: set<OpId>, pending: seq<OpId>)
    requires Acyclic(ops) && heads <= ops.Keys && forall p :: p in pending <==> p in heads
    ensures Walked(ops, heads, [], pending)
  {
    forall h | h in heads ensures h in PastOf(ops, heads) {
      assert Below(ops, h, h);
    }
  }

  /** Dropping a heap entry that is already listed changes nothing. */
  lemma WalkSkip(ops: Ops, heads: set<OpId>, entries: seq<Op>, pending: seq<OpId>, rest: seq<OpId>, id: OpId)
    requires Acyclic(ops) && heads <= ops.Keys && Walked(ops, heads, entries, pending) && id in Ids(entries)
    requires forall p :: p in pending <==> p == id || p in rest
    ensures Walked(ops, heads, entries, rest)
  {}

  /** Listing the newest operation and pushing its parents keeps the walk going. */
  lemma WalkStep(ops: Ops, heads: set<OpId>, entries: seq<Op>, pending: seq<OpId>, rest: seq<OpId>, parents: seq<OpId>, id: OpId)
    requires Acyclic(ops) && heads <= ops.Keys && Walked(ops, heads, entries, pending)
    requires id in pending && id !in Ids(entries)
    requires forall p :: p in pending ==> p == id || Newer(ops[id], ops[p])
    requires forall p :: p in pending <==> p == id || p in rest
    requires forall p :: p in parents <==> p in ops[id].deps
    ensures Walked(ops, heads, entries + [ops[id]], rest + parents)
  {
    StepListed(ops, entries, pending, id);
    StepOrder(ops, entries, pending, rest, parents, id);
    StepMet(heads, entries, ops[id], pending, rest, parents);
    StepPast(ops, heads, entries, pending, rest, parents, id);
  }

  lemma StepListed(ops: Ops, entries: seq<Op>, pending: seq<OpId>, id: OpId)
    requires Acyclic(ops) && (forall p :: p in pending ==> p in ops) && AreOps(ops, entries)
    requires Sorted(Newer, entries) && Ahead(ops, entries, pending) && id in pending && id !in Ids(entries)
    ensures AreOps(ops, entries + [ops[id]]) && Sorted(Newer, entries + [ops[id]])
    ensures forall i :: 0 <= i < |entries| ==> Newer(entries[i], ops[id])
  {
    assert forall i :: 0 <= i < |entries| ==> entries[i].id in Ids(entries) && Newer(entries[i], ops[id]);
  }

  lemma StepPast(ops: Ops, heads: set<OpId>, entries: seq<Op>, pending: seq<OpId>, rest: seq<OpId>, parents: seq<OpId>, id: OpId)
    requires Acyclic(ops) && heads <= ops.Keys && Ids(entries) <= PastOf(ops, heads) && id in pending
    requires forall p :: p in pending ==> p in PastOf(ops, heads)
    requires forall p :: p in rest ==> p in pending
    requires forall p :: p in parents ==> p in ops[id].deps
    ensures Ids(entries + [ops[id]]) <= PastOf(ops, heads)
    ensures forall p :: p in rest + parents ==> p in PastOf(ops, heads)
  {
    IdsOfLonger(entries, ops[id]);
    PastIsClosed(ops, heads);
    assert forall p :: p in rest + parents ==> p in rest || p in parents;
  }

  lemma StepMet(heads: set<OpId>, entries: seq<Op>, op: Op, pending: seq<OpId>, rest: seq<OpId>, parents: seq<OpId>)
    requires Met(heads, entries, pending)
    requires forall p :: p in pending <==> p == op.id || p in rest
    requires forall p :: p in parents <==> p in op.deps
    ensures Met(heads, entries + [op], rest + parents)
  {
    IdsOfLonger(entries, op);
    DepsOfLonger(entries, op);
    assert forall p :: p in rest + parents <==> p in rest || p in parents;
    forall p ensures p in heads + DepsOf(entries + [op]) <==> p in rest + parents || p in Ids(entries + [op]) {
      assert p in heads + DepsOf(entries) <==> p in pending || p in Ids(entries);
    }
  }

  lemma StepOrder(ops: Ops, entries: seq<Op>, pending: seq<OpId>, rest: seq<OpId>, parents: seq<OpId>, id: OpId)
    requires Acyclic(ops) && id in ops && (forall p :: p in pending ==> p in ops) && (forall p :: p in rest ==> p in pending)
    requires forall i :: 0 <= i < |entries| ==> Newer(entries[i], ops[id])
    requires Ahead(ops, entries, pending)
    requires forall p :: p in rest ==> p == id || Newer(ops[id], ops[p])
    requires forall p :: p in parents ==> p in ops[id].deps
    ensures (forall p :: p in rest + parents ==> p in ops) && Ahead(ops, entries + [ops[id]], rest + parents)
  {
    var longer, after := entries + [ops[id]], rest + parents;
    assert forall p :: p in after ==> p in rest || p in parents;
    forall p, i | p in after && 0 <= i < |longer| ensures p == longer[i].id || Newer(longer[i], ops[p]) {
      if p in parents {
        assert Newer(ops[id], ops[p]);
      }
    }
  }

  /** Whatever was met leads to every unlisted operation below it through an open one. */
  lemma {:induction false} OpenAbove(ops: Ops, heads: set<OpId>, entries: seq<Op>, x: OpId, p: OpId) returns (o: OpId)
    requires Acyclic(ops) && heads <= ops.Keys && AreOps(ops, entries)
    requires p in heads + DepsOf(entries) && p in ops && Below(ops, x, p) && x !in Ids(entries)
    ensures o in Open(heads, entries) && o in ops && Below(ops, x, o)
    decreases ops[p].generation
  {
    if p !in Ids(entries) {
      o := p;
    } else {
      var d :| d in ops[p].deps && Below(ops, x, d);
      DepsMet(entries, p, ops[p].deps);
      o := OpenAbove(ops, heads, entries, x, d);
    }
  }

  lemma {:induction false} DepsMet(entries: seq<Op>, p: OpId, deps: set<OpId>)
    requires p in Ids(entries) && forall i :: 0 <= i < |entries| && entries[i].id == p ==> entries[i].deps == deps
    ensures deps <= DepsOf(entries)
  {
    var n := |entries| - 1;
    if entries[n].id != p {
      IdsSplitLast(entries);
      assert forall i :: 0 <= i < n ==> entries[..n][i] == entries[i];
      DepsMet(entries[..n], p, deps);
    }
  }

  lemma OpenBelow(ops: Ops, heads: set<OpId>, entries: seq<Op>, x: OpId) returns (o: OpId)
    requires Acyclic(ops) && heads <= ops.Keys && AreOps(ops, entries)
    requires x in PastOf(ops, heads) && x !in Ids(entries)
    ensures o in Open(heads, entries) && o in ops && Below(ops, x, o)
  {
    var h :| h in heads && Below(ops, x, h);
    o := OpenAbove(ops, heads, entries, x, h);
  }

  lemma LeadingEntries(ops: Ops, heads: set<OpId>, entries: seq<Op>, pending: seq<OpId>)
    requires Acyclic(ops) && heads <= ops.Keys && Walked(ops, heads, entries, pending)
    ensures LeadingPart(Newer, Select(ops, PastOf(ops, heads)), entries)
  {
    forall i, x | 0 <= i < |entries| && x in Select(ops, PastOf(ops, heads)) && x !in entries ensures Newer(entries[i], x) {
      assert x.id !in Ids(entries);
      var o := OpenBelow(ops, heads, entries, x.id);
      assert entries[i].id in Ids(entries) && o in pending;
      BelowIsOlder(ops, x.id, o);
    }
    forall x | x in Elements(entries) ensures x in Select(ops, PastOf(ops, heads)) {
      var k :| 0 <= k < |entries| && entries[k] == x;
      assert x.id in Ids(entries);
    }
  }

  lemma LeadingAreOps(ops: Ops, heads: set<OpId>, entries: seq<Op>)
    requires Acyclic(ops) && heads <= ops.Keys && LeadingPart(Newer, Select(ops, PastOf(ops, heads)), entries)
    ensures AreOps(ops, entries) && Ids(entries) <= PastOf(ops, heads)
    ensures forall x :: x in ops ==> (ops[x] in Elements(entries) <==> x in Ids(entries))
  {
    forall i | 0 <= i < |entries| ensures entries[i].id in PastOf(ops, heads) && ops[entries[i].id] == entries[i] {
      assert entries[i] in Elements(entries);
    }
    forall x | x in ops && ops[x] in Elements(entries) ensures x in Ids(entries) {
      var i :| 0 <= i < |entries| && entries[i] == ops[x];
    }
  }

  lemma {:induction false} DepsInPast(ops: Ops, heads: set<OpId>, entries: seq<Op>)
    requires Acyclic(ops) && heads <= ops.Keys && AreOps(ops, entries) && Ids(entries) <= PastOf(ops, heads)
    ensures DepsOf(entries) <= PastOf(ops, heads)
  {
    if entries != [] {
      var n := |entries| - 1;
      IdsSplitLast(entries);
      assert forall i :: 0 <= i < n ==> entries[..n][i] == entries[i];
      DepsInPast(ops, heads, entries[..n]);
      PastIsClosed(ops, heads);
    }
  }

  lemma OpenInPast(ops: Ops, heads: set<OpId>, entries: seq<Op>)
    requires Acyclic(ops) && heads <= ops.Keys && AreOps(ops, entries) && Ids(entries) <= PastOf(ops, heads)
    ensures Open(heads, entries) <= PastOf(ops, heads)
  {
    DepsInPast(ops, heads, entries);
    forall h | h in heads ensures h in PastOf(ops, heads) {
      assert Below(ops, h, h);
    }
  }

  lemma BelowOpenIsUnlisted(ops: Ops, all: set<Op>, entries: seq<Op>, x: OpId, o: OpId)
    requires Acyclic(ops) && LeadingPart(Newer, all, entries) && AreOps(ops, entries)
    requires o in ops && ops[o] in all && o !in Ids(entries) && Below(ops, x, o)
    ensures x !in Ids(entries)
  {
    BelowIsOlder(ops, x, o);
    assert forall i :: 0 <= i < |entries| ==> entries[i].id in Ids(entries);
    forall i | 0 <= i < |entries| ensures entries[i].id != x {
      assert Newer(entries[i], ops[o]);
    }
  }

  /** The open operations lead to exactly what a leading part has not listed. */
  lemma OpenPast(ops: Ops, heads: set<OpId>, entries: seq<Op>)
    requires Acyclic(ops) && heads <= ops.Keys && LeadingPart(Newer, Select(ops, PastOf(ops, heads)), entries)
    ensures Open(heads, entries) <= ops.Keys
    ensures Select(ops, PastOf(ops, Open(heads, entries))) == Select(ops, PastOf(ops, heads)) - Elements(entries)
  {
    LeadingAreOps(ops, heads, entries);
    OpenInPast(ops, heads, entries);
    var open := Open(heads, entries);
    forall x | x in ops ensures x in PastOf(ops, open) <==> x in PastOf(ops, heads) && x !in Ids(entries) {
      if x in PastOf(ops, open) {
        var o :| o in open && Below(ops, x, o);
        BelowOpenIsUnlisted(ops, Select(ops, PastOf(ops, heads)), entries, x, o);
        PastIsClosed(ops, heads);
        ClosedHoldsPast(ops, PastOf(ops, heads), x, o);
      }
      if x in PastOf(ops, heads) && x !in Ids(entries) {
        var o := OpenBelow(ops, heads, entries, x);
      }
    }
  }

  lemma NoOverflow(ops: Ops, heads: set<OpId>, limit: nat, maxBytes: nat, page: Page)
    requires Acyclic(ops) && heads <= ops.Keys && IsPage(ops, heads, limit, page) && Bytes(page.entries) <= maxBytes
    ensures !Overflows(ops, heads, limit, maxBytes)
  {
    var all := Select(ops, PastOf(ops, heads));
    forall os | LeadingPart(Newer, all, os) && |os| <= limit ensures Bytes(os) <= maxBytes {
      NewerIsStrict();
      if page.next == {} {
        assert PastOf(ops, {}) == {};
        assert all - Elements(page.entries) == {};
        assert forall x :: x in all ==> x !in all - Elements(page.entries);
        LeadingPartFits(Newer, all, page.entries, os);
      }
      LeadingPartUnique(Newer, all, os, page.entries);
      BytesPrefix(page.entries, |os|);
    }
  }

  // ----- Reading page after page -----

  /** Pages read one after another, each from the previous page's `next`. */
  ghost predicate Followed(ops: Ops, heads: set<OpId>, limits: seq<nat>, pages: seq<Page>)
    requires Acyclic(ops)
    decreases |pages|
  {
    && |limits| == |pages|
    && heads <= ops.Keys
    && (pages != [] ==>
          && IsPage(ops, heads, limits[0], pages[0])
          && Followed(ops, pages[0].next, limits[1..], pages[1..]))
  }

  function Listed(pages: seq<Page>): seq<Op> {
    if pages == [] then [] else pages[0].entries + Listed(pages[1..])
  }

  /** The heads left after the last page read. */
  function Rest(heads: set<OpId>, pages: seq<Page>): set<OpId>
    decreases |pages|
  {
    if pages == [] then heads else Rest(pages[0].next, pages[1..])
  }

  /** However the pages are cut, they list the past newest first without repeats, and the heads left over lead to the rest. */
  lemma {:induction false} PagesListPast(ops: Ops, heads: set<OpId>, limits: seq<nat>, pages: seq<Page>)
    requires Acyclic(ops) && Followed(ops, heads, limits, pages)
    ensures Rest(heads, pages) <= ops.Keys
    ensures LeadingPart(Newer, Select(ops, PastOf(ops, heads)), Listed(pages))
    ensures Select(ops, PastOf(ops, Rest(heads, pages))) == Select(ops, PastOf(ops, heads)) - Elements(Listed(pages))
    decreases |pages|
  {
    if pages != [] {
      PagesListPast(ops, pages[0].next, limits[1..], pages[1..]);
      LeadingPartsJoin(Newer, Select(ops, PastOf(ops, heads)), pages[0].entries, Listed(pages[1..]));
    }
  }

  lemma NothingPast(ops: Ops, heads: set<OpId>)
    requires Acyclic(ops) && heads <= ops.Keys
    ensures Select(ops, PastOf(ops, heads)) == {} <==> heads == {}
  {
    forall h | h in heads ensures ops[h] in Select(ops, PastOf(ops, heads)) {
      assert Below(ops, h, h) && InPast(ops, heads, h);
    }
  }

  lemma NothingLeft<T>(all: set<T>, part: set<T>)
    requires part <= all
    ensures all - part == {} <==> part == all
  {
    if all - part == {} {
      forall x | x in all ensures x in part {
        assert x !in all - part;
      }
    }
  }

  /** Once `next` is empty, every operation of the past has been listed exactly once. */
  lemma PagesAreExact(ops: Ops, heads: set<OpId>, limits: seq<nat>, pages: seq<Page>)
    requires Acyclic(ops) && Followed(ops, heads, limits, pages)
    ensures Rest(heads, pages) == {} <==> Elements(Listed(pages)) == Select(ops, PastOf(ops, heads))
    ensures |Listed(pages)| == |Elements(Listed(pages))|
  {
    PagesListPast(ops, heads, limits, pages);
    NothingPast(ops, Rest(heads, pages));
    NothingLeft(Select(ops, PastOf(ops, heads)), Elements(Listed(pages)));
    NewerIsStrict();
    SortedCount(Newer, Listed(pages));
  }

  /** A page with room lists something, so following `next` ends. */
  lemma PageProgress(ops: Ops, heads: set<OpId>, limit: nat, page: Page)
    requires Acyclic(ops) && heads <= ops.Keys && IsPage(ops, heads, limit, page) && heads != {} && limit > 0
    ensures page.entries != []
    ensures |PastOf(ops, page.next)| < |PastOf(ops, heads)|
  {
    var h :| h in heads;
    assert Below(ops, h, h) && InPast(ops, heads, h);
    assert ops[h] in Select(ops, PastOf(ops, heads));
    if page.next == {} {
      assert PastOf(ops, {}) == {};
      assert ops[h] !in Select(ops, PastOf(ops, heads)) - Elements(page.entries);
    }
    var op := page.entries[0];
    assert op in Elements(page.entries);
    forall x | x in PastOf(ops, page.next) ensures x in PastOf(ops, heads) && x != op.id {
      assert ops[x] in Select(ops, PastOf(ops, page.next));
    }
    ProperSubsetIsSmaller(PastOf(ops, page.next), PastOf(ops, heads));
  }

  // ----- Following `next` with an unchanged limit -----

  /** Pages a caller can get with one limit: each request has no more heads than the limit admits. */
  ghost predicate Paged(ops: Ops, heads: set<OpId>, limit: nat, pages: seq<Page>)
    requires Acyclic(ops)
    decreases |pages|
  {
    && heads <= ops.Keys
    && (pages != [] ==>
          && |heads| <= limit && IsPage(ops, heads, limit, pages[0])
          && Paged(ops, pages[0].next, limit, pages[1..]))
  }

  /** Some pages in, the heads left over are too many for the limit. */
  ghost predicate Sticks(ops: Ops, heads: set<OpId>, limit: nat)
    requires Acyclic(ops)
  {
    exists pages :: Paged(ops, heads, limit, pages) && |Rest(heads, pages)| > limit
  }

  /** `n` is a whole number of pages. */
  predicate FullPages(n: nat, limit: nat)
    requires limit > 0
  {
    n == 0 || (limit <= n && FullPages(n - limit, limit))
  }

  /** After every whole number of full pages, no more operations are open than the limit admits. */
  ghost predicate NarrowAtPages(ops: Ops, heads: set<OpId>, limit: nat)
    requires Acyclic(ops) && heads <= ops.Keys && limit > 0
  {
    forall os :: LeadingPart(Newer, Select(ops, PastOf(ops, heads)), os) && FullPages(|os|, limit) ==> |Open(heads, os)| <= limit
  }

  lemma {:induction false} DepsOfJoin(a: seq<Op>, b: seq<Op>)
    ensures DepsOf(a + b) == DepsOf(a) + DepsOf(b)
  {
    if b == [] {
      assert a + b == a;
    } else {
      var n := |b| - 1;
      assert (a + b)[..|a + b| - 1] == a + b[..n];
      DepsOfJoin(a, b[..n]);
    }
  }

  lemma IdsOfJoin(a: seq<Op>, b: seq<Op>)
    ensures Ids(a + b) == Ids(a) + Ids(b)
  {
    forall x ensures x in Ids(a + b) <==> x in Ids(a) || x in Ids(b) {
      if x in Ids(a) {
        var i :| 0 <= i < |a| && a[i].id == x;
        assert (a + b)[i].id == x;
      }
      if x in Ids(b) {
        var i :| 0 <= i < |b| && b[i].id == x;
        assert (a + b)[|a| + i].id == x;
      }
    }
  }

  /** A listing's later operations depend on none of its earlier ones. */
  lemma {:induction false} LaterDeps(ops: Ops, a: seq<Op>, b: seq<Op>)
    requires Acyclic(ops) && AreOps(ops, a) && AreOps(ops, b)
    requires forall i, j :: 0 <= i < |a| && 0 <= j < |b| ==> Newer(a[i], b[j])
    ensures DepsOf(b) !! Ids(a)
  {
    if b != [] {
      var n := |b| - 1;
      assert forall i :: 0 <= i < n ==> b[..n][i] == b[i];
      LaterDeps(ops, a, b[..n]);
      forall d | d in b[n].deps ensures d !in Ids(a) {
        assert ops[d].generation < b[n].generation;
      }
    }
  }

  /** Going on from the open operations of a first part leaves those of the whole. */
  lemma OpenJoin(ops: Ops, heads: set<OpId>, a: seq<Op>, b: seq<Op>)
    requires Acyclic(ops) && AreOps(ops, a) && AreOps(ops, b) && Sorted(Newer, a + b)
    ensures Open(Open(heads, a), b) == Open(heads, a + b)
  {
    forall i, j | 0 <= i < |a| && 0 <= j < |b| ensures Newer(a[i], b[j]) {
      assert (a + b)[i] == a[i] && (a + b)[|a| + j] == b[j];
    }
    DepsOfJoin(a, b);
    IdsOfJoin(a, b);
    LaterDeps(ops, a, b);
  }

  lemma PageThenRest(ops: Ops, heads: set<OpId>, limit: nat, page: Page, rest: seq<Op>)
    requires Acyclic(ops) && heads <= ops.Keys && IsPage(ops, heads, limit, page)
    requires LeadingPart(Newer, Select(ops, PastOf(ops, page.next)), rest)
    ensures LeadingPart(Newer, Select(ops, PastOf(ops, heads)), page.entries + rest)
    ensures Open(page.next, rest) == Open(heads, page.entries + rest)
  {
    LeadingPartsJoin(Newer, Select(ops, PastOf(ops, heads)), page.entries, rest);
    LeadingAreOps(ops, heads, page.entries);
    LeadingAreOps(ops, page.next, rest);
    OpenJoin(ops, heads, page.entries, rest);
  }

  /** The pages list a leading part, and the heads left over are its open operations. */
  lemma {:induction false} PagedIsOpen(ops: Ops, heads: set<OpId>, limit: nat, pages: seq<Page>)
    requires Acyclic(ops) && Paged(ops, heads, limit, pages)
    ensures LeadingPart(Newer, Select(ops, PastOf(ops, heads)), Listed(pages))
    ensures Rest(heads, pages) == Open(heads, Listed(pages))
    decreases |pages|
  {
    if pages == [] {
      assert Open(heads, []) == heads;
    } else {
      PagedIsOpen(ops, pages[0].next, limit, pages[1..]);
      PageThenRest(ops, heads, limit, pages[0], Listed(pages[1..]));
    }
  }

  /** While something is left, every page was full. */
  lemma {:induction false} PagedIsFull(ops: Ops, heads: set<OpId>, limit: nat, pages: seq<Page>)
    requires Acyclic(ops) && limit > 0 && Paged(ops, heads, limit, pages) && Rest(heads, pages) != {}
    ensures heads != {} && FullPages(|Listed(pages)|, limit)
    decreases |pages|
  {
    if pages != [] {
      PagedIsFull(ops, pages[0].next, limit, pages[1..]);
      NothingPast(ops, heads);
      NothingPast(ops, pages[0].next);
    }
  }

  /** After a first full page of a listing, the walk goes on from its open operations with the rest of the listing. */
  lemma CutPage(ops: Ops, heads: set<OpId>, limit: nat, os: seq<Op>) returns (next: set<OpId>, rest: seq<Op>)
    requires Acyclic(ops) && heads <= ops.Keys && limit <= |os| && |heads| <= limit
    requires LeadingPart(Newer, Select(ops, PastOf(ops, heads)), os)
    ensures next <= ops.Keys && |rest| == |os| - limit && Open(next, rest) == Open(heads, os)
    ensures LeadingPart(Newer, Select(ops, PastOf(ops, next)), rest)
    ensures Sticks(ops, next, limit) ==> Sticks(ops, heads, limit)
  {
    var all := Select(ops, PastOf(ops, heads));
    var entries := os[..limit];
    rest := os[limit..];
    assert os == entries + rest;
    LeadingPartPrefix(Newer, all, os, limit);
    OpenPast(ops, heads, entries);
    next := Open(heads, entries);
    NewerIsStrict();
    LeadingPartRest(Newer, all, os, limit);
    LeadingAreOps(ops, heads, os);
    OpenJoin(ops, heads, entries, rest);
    if Sticks(ops, next, limit) {
      SticksLater(ops, heads, limit, Page(entries, next));
    }
  }

  lemma {:induction false} WideSticks(ops: Ops, heads: set<OpId>, limit: nat, os: seq<Op>)
    requires Acyclic(ops) && heads <= ops.Keys && limit > 0
    requires LeadingPart(Newer, Select(ops, PastOf(ops, heads)), os) && FullPages(|os|, limit) && |Open(heads, os)| > limit
    ensures Sticks(ops, heads, limit)
    decreases |os|
  {
    if |heads| > limit {
      assert Paged(ops, heads, limit, []);
    } else {
      assert os != [] by {
        assert Open(heads, []) == heads;
      }
      var next, rest := CutPage(ops, heads, limit, os);
      WideSticks(ops, next, limit, rest);
    }
  }

  lemma SticksLater(ops: Ops, heads: set<OpId>, limit: nat, page: Page)
    requires Acyclic(ops) && heads <= ops.Keys && |heads| <= limit
    requires IsPage(ops, heads, limit, page) && Sticks(ops, page.next, limit)
    ensures Sticks(ops, heads, limit)
  {
    var rest :| Paged(ops, page.next, limit, rest) && |Rest(page.next, rest)| > limit;
    PageBefore(ops, heads, limit, page, rest);
  }

  lemma PageBefore(ops: Ops, heads: set<OpId>, limit: nat, page: Page, rest: seq<Page>)
    requires Acyclic(ops) && heads <= ops.Keys && |heads| <= limit
    requires IsPage(ops, heads, limit, page) && Paged(ops, page.next, limit, rest)
    ensures Paged(ops, heads, limit, [page] + rest) && Rest(heads, [page] + rest) == Rest(page.next, rest)
  {
    assert ([page] + rest)[1..] == rest;
  }

  /** A caller that keeps the limit gets through exactly when the history is narrow at its page ends. */
  lemma FixedLimitIff(ops: Ops, heads: set<OpId>, limit: nat)
    requires Acyclic(ops) && heads <= ops.Keys && limit > 0
    ensures !Sticks(ops, heads, limit) <==> NarrowAtPages(ops, heads, limit)
  {
    if NarrowAtPages(ops, heads, limit) {
      forall pages | Paged(ops, heads, limit, pages) ensures |Rest(heads, pages)| <= limit {
        PagedIsOpen(ops, heads, limit, pages);
        if Rest(heads, pages) != {} {
          PagedIsFull(ops, heads, limit, pages);
        }
      }
    } else {
      var os :| LeadingPart(Newer, Select(ops, PastOf(ops, heads)), os) && FullPages(|os|, limit) && |Open(heads, os)| > limit;
      WideSticks(ops, heads, limit, os);
    }
  }

  /** A limit of 1 sticks at every merge of two operations. */
  lemma MergeSticks(ops: Ops, merge: OpId, a: OpId, b: OpId)
    requires Acyclic(ops) && merge in ops && ops[merge].deps == {a, b} && a != b
    ensures Sticks(ops, {merge}, 1)
  {
    var os := [ops[merge]];
    assert os[..0] == [];
    assert Below(ops, merge, merge) && InPast(ops, {merge}, merge);
    forall x | x in Select(ops, PastOf(ops, {merge})) && x !in os ensures Newer(ops[merge], x) {
      BelowIsOlder(ops, x.id, merge);
    }
    assert LeadingPart(Newer, Select(ops, PastOf(ops, {merge})), os);
    assert Open({merge}, os) == {a, b} by {
      assert DepsOf(os) == DepsOf([]) + {a, b} && os[0].id == merge;
    }
    FixedLimitIff(ops, {merge}, 1);
  }

  function Reverse(os: seq<Op>): (r: seq<Op>)
    ensures |r| == |os| && forall i :: 0 <= i < |os| ==> r[i] == os[|os| - 1 - i]
  {
    if os == [] then [] else [os[|os| - 1]] + Reverse(os[..|os| - 1])
  }

  /** The whole causal past of the heads, oldest first, or an error. */
  method HistoryEntries(ops: Ops, heads: set<OpId>, limit: nat, maxBytes: nat) returns (r: Result<seq<Op>, HistoryError>)
    requires Acyclic(ops)
    ensures r.Ok? <==>
              && heads != {} && limit > 0 && maxBytes > 0 && |heads| <= limit && heads <= ops.Keys
              && |Select(ops, PastOf(ops, heads))| <= limit && !Overflows(ops, heads, limit, maxBytes)
    ensures r.Err? ==> r.error != DeletedGraph
    ensures r.Ok? ==> CausalOps(ops, r.value) && Ids(r.value) == PastOf(ops, heads)
    ensures r.Ok? ==> forall i, j :: 0 <= i < j < |r.value| ==> Newer(r.value[j], r.value[i])
  {
    if heads == {} || limit == 0 || maxBytes == 0 {
      return Err(InvalidRequest);
    }
    var paged := HistoryPage(ops, heads, limit, maxBytes);
    if paged.Err? {
      return Err(paged.error);
    }
    var page := paged.value;
    EntriesWhenWhole(ops, heads, limit, page);
    if page.next != {} {
      return Err(OperationLimit);
    }
    return Ok(Reverse(page.entries));
  }

  lemma EntriesWhenWhole(ops: Ops, heads: set<OpId>, limit: nat, page: Page)
    requires Acyclic(ops) && heads <= ops.Keys && IsPage(ops, heads, limit, page)
    ensures page.next == {} <==> |Select(ops, PastOf(ops, heads))| <= limit
    ensures page.next == {} ==> CausalOps(ops, Reverse(page.entries)) && Ids(Reverse(page.entries)) == PastOf(ops, heads)
  {
    var all := Select(ops, PastOf(ops, heads));
    assert Followed(ops, page.next, [], []);
    assert Followed(ops, heads, [limit], [page]);
    assert Listed([page]) == page.entries;
    PagesAreExact(ops, heads, [limit], [page]);
    if page.next != {} {
      assert Elements(page.entries) < all;
      ProperSubsetIsSmaller(Elements(page.entries), all);
    } else {
      ReversedEntries(ops, heads, page.entries);
    }
  }

  lemma ReversedEntries(ops: Ops, heads: set<OpId>, entries: seq<Op>)
    requires Acyclic(ops) && heads <= ops.Keys && Sorted(Newer, entries)
    requires Elements(entries) == Select(ops, PastOf(ops, heads))
    ensures CausalOps(ops, Reverse(entries)) && Ids(Reverse(entries)) == PastOf(ops, heads)
  {
    var os := Reverse(entries);
    forall i | 0 <= i < |os| ensures os[i].id in ops && ops[os[i].id] == os[i] && os[i].id in PastOf(ops, heads) {
      assert os[i] in Elements(entries);
    }
    forall id | id in PastOf(ops, heads) ensures id in Ids(os) {
      assert ops[id] in Elements(entries);
      var k :| 0 <= k < |entries| && entries[k] == ops[id];
      assert os[|entries| - 1 - k] == ops[id];
    }
    SortedIsCausal(ops, os);
  }
}

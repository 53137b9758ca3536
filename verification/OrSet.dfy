/**
 The observed-remove quad set. An event carries one dot and a base clock. Each
 insert tags its quad with the event's dot; each delete drops the dots of its
 quad that the base clock covers. A quad stands for its canonical spelling.
 */
module OrSet {
  import opened Wrappers
  import opened Clocks

  datatype Quad = Quad(subject: string, predicate_: string, object_: string)

  datatype Change = Insert(quad: Quad) | Delete(quad: Quad)

  /** Render hints with the last-writer-wins tag that orders them. */
  datatype Hints = Hints(tag: nat, text: string)

  datatype Event = Event(dot: Dot, base: Clock, changes: seq<Change>, hints: Option<Hints>)

  /** One dot keeping one quad alive. */
  datatype Live = Live(quad: Quad, dot: Dot)

  type Content = set<Live>

  function ApplyChange(s: Content, e: Event, c: Change): Content {
    match c
    case Insert(q) => s + {Live(q, e.dot)}
    case Delete(q) => set x | x in s && !(x.quad == q && Contains(e.base, x.dot))
  }

  /** The changes run in the order the event lists them. */
  function ApplyChanges(s: Content, e: Event, cs: seq<Change>): Content {
    if cs == [] then s
    else ApplyChange(ApplyChanges(s, e, cs[..|cs| - 1]), e, cs[|cs| - 1])
  }

  function ApplyEvent(s: Content, e: Event): Content {
    ApplyChanges(s, e, e.changes)
  }

  function Replay(es: seq<Event>): Content {
    if es == [] then {} else ApplyEvent(Replay(es[..|es| - 1]), es[|es| - 1])
  }

  lemma ReplayLonger(es: seq<Event>, e: Event)
    ensures Replay(es + [e]) == ApplyEvent(Replay(es), e)
  {
    assert (es + [e])[..|es|] == es;
  }

  /** The quads a content shows. */
  function Keys(s: Content): set<Quad> {
    set x | x in s :: x.quad
  }

  // ----- What one event does to one dot -----

  /** Whether the event's own dot is on `q` after `cs`, starting from an event not seen before. */
  predicate OwnAdds(e: Event, cs: seq<Change>, q: Quad) {
    cs != [] &&
    var rest := OwnAdds(e, cs[..|cs| - 1], q);
    match cs[|cs| - 1]
    case Insert(p) => p == q || rest
    case Delete(p) => rest && !(p == q && Contains(e.base, e.dot))
  }

  predicate Adds(e: Event, q: Quad) {
    OwnAdds(e, e.changes, q)
  }

  predicate Kills(e: Event, q: Quad, d: Dot) {
    Delete(q) in e.changes && Contains(e.base, d)
  }

  lemma {:induction false} ChangesOnOtherDot(s: Content, e: Event, cs: seq<Change>, x: Live)
    requires x.dot != e.dot
    ensures x in ApplyChanges(s, e, cs) <==> x in s && !(Delete(x.quad) in cs && Contains(e.base, x.dot))
  {
    if cs != [] {
      ChangesOnOtherDot(s, e, cs[..|cs| - 1], x);
      assert cs == cs[..|cs| - 1] + [cs[|cs| - 1]];
    }
  }

  lemma {:induction false} ChangesOnOwnDot(s: Content, e: Event, cs: seq<Change>, x: Live)
    requires x.dot == e.dot && x !in s
    ensures x in ApplyChanges(s, e, cs) <==> OwnAdds(e, cs, x.quad)
  {
    if cs != [] {
      ChangesOnOwnDot(s, e, cs[..|cs| - 1], x);
    }
  }

  lemma {:induction false} OwnAddsIsListed(e: Event, cs: seq<Change>, q: Quad)
    requires OwnAdds(e, cs, q)
    ensures Insert(q) in cs
  {
    if cs[|cs| - 1] != Insert(q) {
      OwnAddsIsListed(e, cs[..|cs| - 1], q);
    }
  }

  // ----- Replay in any order whatever -----

  predicate DistinctDots(es: seq<Event>) {
    forall i, j :: 0 <= i < j < |es| ==> es[i].dot != es[j].dot
  }

  predicate KilledAfter(es: seq<Event>, j: int, q: Quad, d: Dot) {
    exists l :: 0 <= l < |es| && j < l && Kills(es[l], q, d)
  }

  predicate KilledBefore(es: seq<Event>, j: int, q: Quad, d: Dot) {
    exists i :: 0 <= i < j && i < |es| && Kills(es[i], q, d)
  }

  predicate ReplayKeeps(es: seq<Event>, j: int, x: Live) {
    0 <= j < |es| && es[j].dot == x.dot && Adds(es[j], x.quad) && !KilledAfter(es, j, x.quad, x.dot)
  }

  /** A dot is live after a replay, in whatever order, exactly when its event put it there and no later event killed it. */
  lemma {:induction false} ReplayMember(es: seq<Event>, x: Live)
    requires DistinctDots(es)
    ensures x in Replay(es) <==> exists j :: ReplayKeeps(es, j, x)
  {
    if es != [] {
      var n := |es| - 1;
      var front, e := es[..n], es[n];
      ReplayMember(front, x);
      if x.dot == e.dot {
        assert x !in Replay(front);
        ChangesOnOwnDot(Replay(front), e, e.changes, x);
        if Adds(e, x.quad) {
          assert ReplayKeeps(es, n, x);
        }
        forall j | ReplayKeeps(es, j, x) ensures j == n {
        }
      } else {
        ChangesOnOtherDot(Replay(front), e, e.changes, x);
        if x in Replay(es) {
          var j :| ReplayKeeps(front, j, x);
          assert forall l :: j < l < n ==> es[l] == front[l];
          assert ReplayKeeps(es, j, x);
        }
        if j :| ReplayKeeps(es, j, x) {
          assert forall l :: j < l < n ==> es[l] == front[l];
          assert ReplayKeeps(front, j, x);
        }
      }
    }
  }

  // ----- The order-free meaning of a set of events -----

  ghost predicate Clear(es: set<Event>, e: Event, q: Quad) {
    forall f :: f in es && f != e ==> !Kills(f, q, e.dot)
  }

  ghost predicate LiveVia(es: set<Event>, e: Event, x: Live) {
    e in es && e.dot == x.dot && Adds(e, x.quad) && Clear(es, e, x.quad)
  }

  ghost predicate IsLive(es: set<Event>, x: Live) {
    exists e :: LiveVia(es, e, x)
  }

  /** The content a set of events denotes, with no order in sight. */
  ghost function Meaning(es: set<Event>): Content {
    set e, c | e in es && c in e.changes && IsLive(es, Live(c.quad, e.dot)) :: Live(c.quad, e.dot)
  }

  lemma MeaningMember(es: set<Event>, x: Live)
    ensures x in Meaning(es) <==> IsLive(es, x)
  {
    if IsLive(es, x) {
      var e :| LiveVia(es, e, x);
      OwnAddsIsListed(e, e.changes, x.quad);
      assert Insert(x.quad) in e.changes && Live(Insert(x.quad).quad, e.dot) == x;
    }
  }

  function ToSet(es: seq<Event>): set<Event> {
    set e | e in es
  }

  /** No event comes before one its base clock covers. */
  predicate Causal(es: seq<Event>) {
    forall i, j :: 0 <= i < j < |es| ==> !Contains(es[i].base, es[j].dot)
  }

  /** Every dot that an early delete should have dropped is dropped by a later one too. */
  predicate NothingResurrected(es: seq<Event>) {
    forall j, c :: 0 <= j < |es| && c in es[j].changes && Adds(es[j], c.quad) && KilledBefore(es, j, c.quad, es[j].dot)
      ==> KilledAfter(es, j, c.quad, es[j].dot)
  }

  lemma KeptIsLiveOrResurrected(es: seq<Event>, j: int, x: Live)
    requires DistinctDots(es) && ReplayKeeps(es, j, x)
    ensures IsLive(ToSet(es), x) <==> !KilledBefore(es, j, x.quad, x.dot)
  {
    var s := ToSet(es);
    if KilledBefore(es, j, x.quad, x.dot) {
      var i :| 0 <= i < j && Kills(es[i], x.quad, x.dot);
      assert es[i] in s && es[i] != es[j];
      assert forall e :: e in s && e.dot == x.dot ==> e == es[j];
    } else {
      assert es[j] in s;
      forall f | f in s && f != es[j] ensures !Kills(f, x.quad, x.dot) {
        var k :| 0 <= k < |es| && es[k] == f;
        assert k != j;
      }
      assert LiveVia(s, es[j], x);
    }
  }

  lemma LiveIsKept(es: seq<Event>, x: Live)
    requires DistinctDots(es) && IsLive(ToSet(es), x)
    ensures exists j :: ReplayKeeps(es, j, x)
  {
    var e :| LiveVia(ToSet(es), e, x);
    var j :| 0 <= j < |es| && es[j] == e;
    forall l | j < l < |es| ensures !Kills(es[l], x.quad, x.dot) {
      assert es[l] in ToSet(es) && es[l] != e;
    }
    assert ReplayKeeps(es, j, x);
  }

  /** A replay never loses content, whatever its order. */
  lemma ReplayCoversMeaning(es: seq<Event>)
    requires DistinctDots(es)
    ensures Meaning(ToSet(es)) <= Replay(es)
  {
    forall x | x in Meaning(ToSet(es)) ensures x in Replay(es) {
      MeaningMember(ToSet(es), x);
      LiveIsKept(es, x);
      ReplayMember(es, x);
    }
  }

  /**
   Exactly which orders give the order-free meaning: those in which no dot comes
   back to life because its delete ran before its insert.
   */
  lemma ReplayIsMeaningIff(es: seq<Event>)
    requires DistinctDots(es)
    ensures Replay(es) == Meaning(ToSet(es)) <==> NothingResurrected(es)
  {
    ReplayCoversMeaning(es);
    if NothingResurrected(es) {
      forall x | x in Replay(es) ensures x in Meaning(ToSet(es)) {
        ReplayMember(es, x);
        var j :| ReplayKeeps(es, j, x);
        OwnAddsIsListed(es[j], es[j].changes, x.quad);
        assert Insert(x.quad) in es[j].changes && Insert(x.quad).quad == x.quad;
        KeptIsLiveOrResurrected(es, j, x);
        MeaningMember(ToSet(es), x);
      }
    } else {
      var j, c :| 0 <= j < |es| && c in es[j].changes && Adds(es[j], c.quad)
        && KilledBefore(es, j, c.quad, es[j].dot) && !KilledAfter(es, j, c.quad, es[j].dot);
      var x := Live(c.quad, es[j].dot);
      assert ReplayKeeps(es, j, x);
      ReplayMember(es, x);
      KeptIsLiveOrResurrected(es, j, x);
      MeaningMember(ToSet(es), x);
    }
  }

  /** Replay in any causal order gives the order-free meaning. */
  lemma CausalReplay(es: seq<Event>)
    requires DistinctDots(es) && Causal(es)
    ensures Replay(es) == Meaning(ToSet(es))
  {
    ReplayIsMeaningIff(es);
  }

  /** Any two causal orders of the same events give the same dots. */
  lemma Convergence(left: seq<Event>, right: seq<Event>)
    requires DistinctDots(left) && Causal(left)
    requires DistinctDots(right) && Causal(right)
    requires ToSet(left) == ToSet(right)
    ensures Replay(left) == Replay(right)
  {
    CausalReplay(left);
    CausalReplay(right);
  }

  /** A delete applied before the insert its base clock covers leaves a quad that causal order removes. */
  lemma EarlyDeleteDiverges(q: Quad)
    ensures
      var add := Event(Dot(1, 1), map[], [Insert(q)], None);
      var del := Event(Dot(2, 1), map[1 := 1], [Delete(q)], None);
      Replay([add, del]) == {} && Replay([del, add]) == {Live(q, Dot(1, 1))}
  {
    var add := Event(Dot(1, 1), map[], [Insert(q)], None);
    var del := Event(Dot(2, 1), map[1 := 1], [Delete(q)], None);
    var x := Live(q, Dot(1, 1));
    assert Delete(q) in del.changes && Adds(add, q);
    assert Kills([add, del][1], q, Dot(1, 1)) && ReplayKeeps([del, add], 1, x);
    forall p, e | (e == add || e == del) && Adds(e, p) ensures e == add && p == q {
      OwnAddsIsListed(e, e.changes, p);
    }
    forall y: Live
      ensures y !in Replay([add, del])
      ensures y in Replay([del, add]) <==> y == x
    {
      ReplayMember([add, del], y);
      ReplayMember([del, add], y);
    }
  }

  // ----- Render hints -----

  /** Later hints win only with a strictly larger tag. */
  function ReplayHints(es: seq<Event>): Option<Hints> {
    if es == [] then None
    else
      var before := ReplayHints(es[..|es| - 1]);
      var next := es[|es| - 1].hints;
      if next.Some? && (before.None? || before.value.tag < next.value.tag) then next else before
  }

  predicate DistinctTags(es: set<Event>) {
    forall e, f :: e in es && f in es && e.hints.Some? && f.hints.Some? && e.hints.value.tag == f.hints.value.tag
      ==> e.hints == f.hints
  }

  ghost predicate Winner(es: set<Event>, h: Option<Hints>) {
    && (h.None? ==> forall e :: e in es ==> e.hints.None?)
    && (h.Some? ==> (exists e :: e in es && e.hints == h)
                    && forall e :: e in es && e.hints.Some? ==> e.hints.value.tag <= h.value.tag)
  }

  lemma {:induction false} ReplayHintsWin(es: seq<Event>)
    ensures Winner(ToSet(es), ReplayHints(es))
  {
    if es != [] {
      var front, e := es[..|es| - 1], es[|es| - 1];
      ReplayHintsWin(front);
      assert ToSet(es) == ToSet(front) + {e} by {
        assert es == front + [e];
      }
    }
  }

  /** The winning hints depend on the events alone. */
  lemma HintsConverge(left: seq<Event>, right: seq<Event>)
    requires ToSet(left) == ToSet(right) && DistinctTags(ToSet(left))
    ensures ReplayHints(left) == ReplayHints(right)
  {
    ReplayHintsWin(left);
    ReplayHintsWin(right);
  }
}

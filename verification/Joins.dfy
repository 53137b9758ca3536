/** `join_snapshot`: merging another replica's whole state into the local one. */
module Joins {
  import opened Clocks
  import opened OrSet
  import opened Replays

  /** Both sides hold the dot, or one does and the other's clock has never seen it. */
  predicate Survives(here: bool, there: bool, hereClock: Clock, thereClock: Clock, d: Dot) {
    (here && there) || (here && !Contains(thereClock, d)) || (there && !Contains(hereClock, d))
  }

  function Join(a: Content, ca: Clock, b: Content, cb: Clock): Content {
    set x | x in a + b && Survives(x in a, x in b, ca, cb, x.dot)
  }

  // ----- What a join means -----

  ghost predicate UniqueDots(world: set<Event>) {
    forall e, f :: e in world && f in world && e.dot == f.dot ==> e == f
  }

  /** A replica that has applied exactly `es`: its clock covers their dots and no other, and it has all they observed. */
  ghost predicate Holds(world: set<Event>, es: set<Event>, clock: Clock) {
    && es <= world
    && (forall e :: e in world ==> (e in es <==> Contains(clock, e.dot)))
    && forall e, f :: e in es && f in world && Contains(e.base, f.dot) ==> f in es
  }

  lemma LiveInUnion(world: set<Event>, s: set<Event>, cs: Clock, t: set<Event>, ct: Clock, x: Live)
    requires UniqueDots(world) && Holds(world, s, cs) && Holds(world, t, ct)
    ensures IsLive(s + t, x) <==> (IsLive(s, x) || IsLive(t, x)) && Survives(IsLive(s, x), IsLive(t, x), cs, ct, x.dot)
  {
    if e :| LiveVia(s + t, e, x) {
      assert e in s ==> LiveVia(s, e, x);
      assert e in t ==> LiveVia(t, e, x);
    }
    if e :| LiveVia(s, e, x) && (IsLive(t, x) || !Contains(ct, x.dot)) {
      if IsLive(t, x) {
        var f :| LiveVia(t, f, x);
        assert e == f;
      }
      assert LiveVia(s + t, e, x);
    }
    if e :| LiveVia(t, e, x) && (IsLive(s, x) || !Contains(cs, x.dot)) {
      if IsLive(s, x) {
        var f :| LiveVia(s, f, x);
        assert e == f;
      }
      assert LiveVia(s + t, e, x);
    }
  }

  /** Joining the states of two replicas gives the state of one that applied everything either had. */
  lemma JoinIsMeaning(world: set<Event>, s: set<Event>, cs: Clock, t: set<Event>, ct: Clock)
    requires UniqueDots(world) && Holds(world, s, cs) && Holds(world, t, ct)
    ensures Join(Meaning(s), cs, Meaning(t), ct) == Meaning(s + t)
    ensures Holds(world, s + t, Merge(cs, ct))
  {
    forall x: Live ensures x in Join(Meaning(s), cs, Meaning(t), ct) <==> x in Meaning(s + t) {
      MeaningMember(s, x);
      MeaningMember(t, x);
      MeaningMember(s + t, x);
      LiveInUnion(world, s, cs, t, ct, x);
    }
  }

  /** A snapshot and a replay of the events it lacks agree: joining is replaying in causal order. */
  lemma JoinIsReplay(world: set<Event>, left: seq<Event>, cl: Clock, right: seq<Event>, cr: Clock, whole: seq<Event>)
    requires UniqueDots(world) && Holds(world, ToSet(left), cl) && Holds(world, ToSet(right), cr)
    requires DistinctDots(left) && Causal(left) && DistinctDots(right) && Causal(right)
    requires DistinctDots(whole) && Causal(whole) && ToSet(whole) == ToSet(left) + ToSet(right)
    ensures Join(Replay(left), cl, Replay(right), cr) == Replay(whole)
  {
    CausalReplay(left);
    CausalReplay(right);
    CausalReplay(whole);
    JoinIsMeaning(world, ToSet(left), cl, ToSet(right), cr);
  }

  // ----- Laws of the join, on any states -----

  ghost predicate CoveredContent(a: Content, clock: Clock) {
    forall x :: x in a ==> Contains(clock, x.dot)
  }

  lemma JoinLaws(a: Content, ca: Clock, b: Content, cb: Clock)
    ensures Join(a, ca, a, ca) == a
    ensures Join(a, ca, b, cb) == Join(b, cb, a, ca)
    ensures CoveredContent(a, ca) && CoveredContent(b, cb) ==> CoveredContent(Join(a, ca, b, cb), Merge(ca, cb))
  {}

  lemma JoinAssociative(a: Content, ca: Clock, b: Content, cb: Clock, c: Content, cc: Clock)
    requires CoveredContent(a, ca) && CoveredContent(b, cb) && CoveredContent(c, cc)
    ensures Join(Join(a, ca, b, cb), Merge(ca, cb), c, cc) == Join(a, ca, Join(b, cb, c, cc), Merge(cb, cc))
  {
    forall x: Live
      ensures x in Join(Join(a, ca, b, cb), Merge(ca, cb), c, cc) <==> x in Join(a, ca, Join(b, cb, c, cc), Merge(cb, cc))
    {
      assert x in a ==> Contains(ca, x.dot);
      assert x in b ==> Contains(cb, x.dot);
      assert x in c ==> Contains(cc, x.dot);
    }
  }

  /** Joining what is already known changes nothing. */
  lemma JoinAbsorbs(a: Content, ca: Clock, b: Content, cb: Clock)
    requires CoveredContent(a, ca) && CoveredContent(b, cb)
    ensures Join(Join(a, ca, b, cb), Merge(ca, cb), b, cb) == Join(a, ca, b, cb)
  {
    forall x: Live
      ensures x in Join(Join(a, ca, b, cb), Merge(ca, cb), b, cb) <==> x in Join(a, ca, b, cb)
    {
      assert x in a ==> Contains(ca, x.dot);
      assert x in b ==> Contains(cb, x.dot);
    }
  }

  // ----- The join, quad by quad -----

  /** `insert_quad` on one quad's dots. */
  function WithDot(dots: seq<Dot>, d: Dot): seq<Dot> {
    if d in dots then dots else dots + [d]
  }

  /** `join_dots`. */
  method JoinDots(here: seq<Dot>, there: seq<Dot>, hereClock: Clock, thereClock: Clock) returns (joined: seq<Dot>)
    ensures forall d :: d in joined <==> Survives(d in here, d in there, hereClock, thereClock, d)
  {
    joined := [];
    for i := 0 to |here|
      invariant forall d :: d in joined <==> d in here[..i] && (d in there || !Contains(thereClock, d))
    {
      assert here[..i + 1] == here[..i] + [here[i]];
      if here[i] in there || !Contains(thereClock, here[i]) {
        joined := joined + [here[i]];
      }
    }
    assert here[..|here|] == here;
    for i := 0 to |there|
      invariant forall d :: d in joined <==> (d in here && (d in there || !Contains(thereClock, d)))
                                             || (d in there[..i] && d !in here && !Contains(hereClock, d))
    {
      assert there[..i + 1] == there[..i] + [there[i]];
      if there[i] !in here && !Contains(hereClock, there[i]) {
        joined := joined + [there[i]];
      }
    }
    assert there[..|there|] == there;
  }

  method InsertDots(dots: seq<Dot>, more: seq<Dot>) returns (r: seq<Dot>)
    requires NoRepeats(dots)
    ensures NoRepeats(r) && forall d :: d in r <==> d in dots || d in more
  {
    r := dots;
    for i := 0 to |more|
      invariant NoRepeats(r) && forall d :: d in r <==> d in dots || d in more[..i]
    {
      assert more[..i + 1] == more[..i] + [more[i]];
      r := WithDot(r, more[i]);
    }
    assert more[..|more|] == more;
  }

  /** The dots of `xs` that are not in `ys`. */
  function Without(xs: seq<Dot>, ys: seq<Dot>): (r: seq<Dot>)
    ensures forall d :: d in r <==> d in xs && d !in ys
  {
    if xs == [] then []
    else
      assert xs == xs[..|xs| - 1] + [xs[|xs| - 1]];
      Without(xs[..|xs| - 1], ys) + if xs[|xs| - 1] in ys then [] else [xs[|xs| - 1]]
  }

  /** The smallest clock over some dots; it can cover others too. */
  function Range(dots: seq<Dot>): (r: Clock)
    ensures forall d :: d in dots ==> Contains(r, d)
  {
    if dots == [] then map[]
    else
      assert dots == dots[..|dots| - 1] + [dots[|dots| - 1]];
      Observe(Range(dots[..|dots| - 1]), dots[|dots| - 1].actor, dots[|dots| - 1].counter)
  }

  /**
   Adds first, then one removal by a clock over the dropped dots, then the kept
   dots that removal took along: what is left is exactly the join.
   */
  method JoinQuad(here: seq<Dot>, there: seq<Dot>, hereClock: Clock, thereClock: Clock)
    returns (dots: seq<Dot>, changed: bool)
    requires NoRepeats(here)
    ensures NoRepeats(dots) && forall d :: d in dots <==> Survives(d in here, d in there, hereClock, thereClock, d)
    ensures changed <==> exists d :: (d in here) != (d in dots)
    ensures !changed ==> dots == here
  {
    var joined := JoinDots(here, there, hereClock, thereClock);
    var dropped, added := Without(here, joined), Without(joined, here);
    if dropped == [] && added == [] {
      assert forall d :: d in here ==> d in joined by {
        assert forall d :: d !in dropped;
      }
      assert forall d :: d in joined ==> d in here by {
        assert forall d :: d !in added;
      }
      return here, false;
    }
    changed := true;
    dots := InsertDots(here, added);
    if dropped != [] {
      var witnessed := Range(dropped);
      dots := Retain(dots, witnessed);
      var taken := Without(joined, Retain(joined, witnessed));
      dots := InsertDots(dots, taken);
    }
    if dropped != [] {
      assert dropped[0] in here && dropped[0] !in dots;
    } else {
      assert added[0] !in here && added[0] in dots;
    }
  }

  /** The dots a row list holds for one quad. */
  function DotsOf(quads: Quads, q: Quad): seq<Dot> {
    if q in quads then quads[q] else []
  }

  /** `write_quad_state`: a quad without dots has no row. */
  function SetDots(quads: Quads, q: Quad, dots: seq<Dot>): Quads {
    if dots == [] then quads - {q} else quads[q := dots]
  }

  lemma ContentMember(quads: Quads, x: Live)
    ensures x in QuadsContent(quads) <==> x.dot in DotsOf(quads, x.quad)
  {}

  /** Where the loop stands: quads done hold the join, the others what they held before. */
  ghost predicate Joining(now: Quads, local: Quads, lc: Clock, remote: Quads, rc: Clock, todo: set<Quad>) {
    && Tidy(now)
    && (forall q :: q in todo ==> DotsOf(now, q) == DotsOf(local, q))
    && forall q, d: Dot :: q !in todo ==>
                             (d in DotsOf(now, q) <==> Survives(d in DotsOf(local, q), d in DotsOf(remote, q), lc, rc, d))
  }

  ghost predicate Moved(now: Quads, local: Quads, q: Quad) {
    exists d: Dot :: (d in DotsOf(now, q)) != (d in DotsOf(local, q))
  }

  lemma JoinedContent(now: Quads, local: Quads, lc: Clock, remote: Quads, rc: Clock)
    requires Joining(now, local, lc, remote, rc, {})
    ensures QuadsContent(now) == Join(QuadsContent(local), lc, QuadsContent(remote), rc)
  {
    forall x: Live ensures x in QuadsContent(now) <==> x in Join(QuadsContent(local), lc, QuadsContent(remote), rc) {
      ContentMember(now, x);
      ContentMember(local, x);
      ContentMember(remote, x);
    }
  }

  lemma MovedContent(now: Quads, local: Quads)
    ensures QuadsContent(now) != QuadsContent(local) <==> exists q :: Moved(now, local, q)
  {
    if q :| Moved(now, local, q) {
      var d: Dot :| (d in DotsOf(now, q)) != (d in DotsOf(local, q));
      ContentMember(now, Live(q, d));
      ContentMember(local, Live(q, d));
    } else {
      forall x: Live ensures x in QuadsContent(now) <==> x in QuadsContent(local) {
        ContentMember(now, x);
        ContentMember(local, x);
        assert !Moved(now, local, x.quad);
      }
    }
  }

  /** One quad of the join. */
  method JoinNext(now: Quads, local: Quads, lc: Clock, remote: Quads, rc: Clock, ghost todo: set<Quad>, q: Quad)
    returns (quads: Quads, changed: bool)
    requires Tidy(local) && q in todo && Joining(now, local, lc, remote, rc, todo)
    ensures Joining(quads, local, lc, remote, rc, todo - {q})
    ensures changed <==> Moved(quads, local, q)
    ensures !changed ==> quads == now
    ensures forall p :: p != q ==> DotsOf(quads, p) == DotsOf(now, p)
  {
    var dots;
    dots, changed := JoinQuad(DotsOf(local, q), DotsOf(remote, q), lc, rc);
    quads := if changed then SetDots(now, q, dots) else now;
    assert DotsOf(quads, q) == dots;
  }

  method JoinSnapshot(local: Quads, lc: Clock, remote: Quads, rc: Clock)
    returns (quads: Quads, clock: Clock, changed: bool)
    requires Tidy(local)
    ensures Tidy(quads) && clock == Merge(lc, rc)
    ensures QuadsContent(quads) == Join(QuadsContent(local), lc, QuadsContent(remote), rc)
    ensures changed <==> clock != lc || QuadsContent(quads) != QuadsContent(local)
    ensures !changed ==> quads == local
  {
    clock := Merge(lc, rc);
    changed := clock != lc;
    quads := local;
    var todo := local.Keys + remote.Keys;
    while todo != {}
      invariant Joining(quads, local, lc, remote, rc, todo)
      invariant changed <==> clock != lc || exists q :: Moved(quads, local, q)
      invariant !changed ==> quads == local
    {
      var q :| q in todo;
      ghost var before := quads;
      var differs;
      quads, differs := JoinNext(quads, local, lc, remote, rc, todo, q);
      assert forall p :: p != q ==> (Moved(quads, local, p) <==> Moved(before, local, p));
      changed := changed || differs;
      todo := todo - {q};
    }
    JoinedContent(quads, local, lc, remote, rc);
    MovedContent(quads, local);
  }
}

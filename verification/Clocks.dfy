/** Per-actor positions: Irokle's `ActorClock` and Craqle's `VectorClock`. */
module Clocks {
  type Actor = nat

  datatype Dot = Dot(actor: Actor, counter: nat)

  type Clock = map<Actor, nat>

  /** The position of an actor; an absent actor is at 0. */
  function Get(clock: Clock, actor: Actor): nat {
    if actor in clock then clock[actor] else 0
  }

  predicate Contains(clock: Clock, dot: Dot) {
    dot.actor in clock && dot.counter <= clock[dot.actor]
  }

  /** `ActorClock::observe` and `VectorClock::advance`: positions never move back. */
  function Observe(clock: Clock, actor: Actor, counter: nat): (r: Clock)
    ensures forall d: Dot :: Contains(r, d) <==> Contains(clock, d) || (d.actor == actor && d.counter <= counter)
    ensures forall a: Actor :: Get(r, a) == if a == actor && Get(clock, a) < counter then counter else Get(clock, a)
  {
    clock[actor := if Get(clock, actor) < counter then counter else Get(clock, actor)]
  }

  /** Entry-wise maximum. */
  function Merge(left: Clock, right: Clock): (r: Clock)
    ensures forall d: Dot :: Contains(r, d) <==> Contains(left, d) || Contains(right, d)
  {
    map a | a in left.Keys + right.Keys :: if Get(left, a) < Get(right, a) then Get(right, a) else Get(left, a)
  }

  /** `left` is at or behind `right` for every actor. */
  ghost predicate Leq(left: Clock, right: Clock) {
    forall a: Actor :: Get(left, a) <= Get(right, a)
  }
}

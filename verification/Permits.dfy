/**
 `FlushPermit`: a shared counter bounds the flushes under way. A permit is held
 by its waiter and by its queued request, on different threads, and gives its
 place back once. Every step here is one atomic action of one thread.
 */
module Permits {
  const MAX_PENDING_FLUSHES: nat := 1024
  const USIZE_MAX: nat := 0xFFFF_FFFF_FFFF_FFFF

  datatype Holder = Waiter | Request

  /** `owing` is between winning the swap on `released` and lowering the counter. */
  datatype Permit = Permit(holders: set<Holder>, released: bool, owing: bool)

  datatype State = State(pending: nat, permits: map<nat, Permit>)

  datatype Step =
    | Acquire(id: nat)
    | Release(id: nat) // the swap in `release`, by whoever calls it
    | Subtract(id: nat) // the counter update of the call that won the swap
    | LetGo(id: nat, holder: Holder) // a reference goes: reply, failed send, cancellation, stop

  predicate Enabled(s: State, step: Step) {
    match step
    case Acquire(id) => id !in s.permits
    case Release(id) => id in s.permits && s.permits[id].holders != {}
    case Subtract(id) => id in s.permits && s.permits[id].owing
    // A waiter releases the permit before it lets go of it.
    case LetGo(id, holder) =>
      id in s.permits && holder in s.permits[id].holders && (holder == Waiter ==> s.permits[id].released)
  }

  /** `swap(true)`: only the call that finds the permit unreleased owes a subtraction. */
  function Swapped(p: Permit): Permit {
    p.(released := true, owing := p.owing || !p.released)
  }

  /** `fetch_sub` wraps below zero; `PermitsAreConserved` shows it never gets there. */
  function Next(s: State, step: Step): State
    requires Enabled(s, step)
  {
    match step
    case Acquire(id) =>
      if s.pending < MAX_PENDING_FLUSHES then
        State(s.pending + 1, s.permits[id := Permit({Waiter, Request}, false, false)])
      else s
    case Release(id) => s.(permits := s.permits[id := Swapped(s.permits[id])])
    case Subtract(id) =>
      State(if s.pending > 0 then s.pending - 1 else USIZE_MAX, s.permits[id := s.permits[id].(owing := false)])
    case LetGo(id, holder) =>
      var left := s.permits[id].(holders := s.permits[id].holders - {holder});
      // Dropping the last reference releases the permit once more.
      s.(permits := s.permits[id := if left.holders == {} then Swapped(left) else left])
  }

  ghost predicate Run(from: State, steps: seq<Step>, to: State)
    decreases |steps|
  {
    if steps == [] then from == to
    else Enabled(from, steps[0]) && Run(Next(from, steps[0]), steps[1..], to)
  }

  const START := State(0, map[])

  function Unreleased(s: State): set<nat> {
    set id | id in s.permits && !s.permits[id].released
  }

  /** Places still counted: unreleased permits, and released ones about to be subtracted. */
  function Counted(s: State): set<nat> {
    set id | id in s.permits && (!s.permits[id].released || s.permits[id].owing)
  }

  /** Only released permits owe a subtraction, and a permit nobody holds is released. */
  ghost predicate Orderly(s: State) {
    forall id :: id in s.permits ==> s.permits[id].owing || s.permits[id].holders == {} ==> s.permits[id].released
  }

  ghost predicate Conserved(s: State) {
    s.pending == |Counted(s)| && s.pending <= MAX_PENDING_FLUSHES && Orderly(s)
  }

  /** Which places a step takes or gives back. */
  lemma StepCounts(s: State, step: Step)
    requires Orderly(s) && Enabled(s, step)
    ensures Orderly(Next(s, step))
    ensures step.Subtract? ==> step.id in Counted(s)
    ensures step.Acquire? ==> step.id !in Counted(s)
    ensures Counted(Next(s, step)) ==
            match step
            case Acquire(id) => if s.pending < MAX_PENDING_FLUSHES then Counted(s) + {id} else Counted(s)
            case Subtract(id) => Counted(s) - {id}
            case Release(_) => Counted(s)
            case LetGo(_, _) => Counted(s)
  {}

  lemma StepConserves(s: State, step: Step)
    requires Conserved(s) && Enabled(s, step)
    ensures Conserved(Next(s, step))
    ensures step.Subtract? ==> s.pending > 0
  {
    StepCounts(s, step);
  }

  lemma {:induction false} RunConserves(from: State, steps: seq<Step>, to: State)
    requires Conserved(from) && Run(from, steps, to)
    ensures Conserved(to)
    decreases |steps|
  {
    if steps != [] {
      StepConserves(from, steps[0]);
      RunConserves(Next(from, steps[0]), steps[1..], to);
    }
  }

  /**
   In every interleaving the counter stays within its limit, no subtraction goes
   below zero, and whenever no thread is between swap and subtraction the counter
   is the number of unreleased permits: none, once every reference is gone.
   */
  lemma PermitsAreConserved(steps: seq<Step>, s: State)
    requires Run(START, steps, s)
    ensures s.pending <= MAX_PENDING_FLUSHES
    ensures forall id :: Enabled(s, Subtract(id)) ==> s.pending > 0
    ensures (forall id :: id in s.permits ==> !s.permits[id].owing) ==> s.pending == |Unreleased(s)|
    ensures (forall id :: id in s.permits ==> !s.permits[id].owing && s.permits[id].holders == {}) ==> s.pending == 0
  {
    assert Counted(START) == {};
    RunConserves(START, steps, s);
    forall id | Enabled(s, Subtract(id)) ensures s.pending > 0 {
      StepConserves(s, Subtract(id));
    }
    if forall id :: id in s.permits ==> !s.permits[id].owing {
      assert Counted(s) == Unreleased(s);
    }
    if forall id :: id in s.permits ==> !s.permits[id].owing && s.permits[id].holders == {} {
      assert Counted(s) == {};
    }
  }
}

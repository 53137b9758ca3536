/**
 `run_search_worker`: one thread that drains the search queue and answers flush
 requests. `trace` records what happened, in order; what a receipt claims is
 stated over it.
 */
module Flushes {
  import opened Wrappers

  const MAX_CONTROL_MESSAGES: nat := 1024

  /** `target` starts at `requested` and grows with every recovery raised while the request waits. */
  datatype Request = Request(id: nat, requested: nat, target: nat, recovery: Option<nat>)

  datatype Message = Wake | Flush(id: nat, requested: nat, cancelled: bool) | Stop

  /** A failed queue entry, owed since `owedFrom`; no retry time means never. */
  datatype Failure = Failure(owedFrom: nat, retryAt: Option<nat>)

  datatype Progress = Progress(covered: nat, remaining: bool, failures: seq<Failure>, recovery: Option<nat>)

  datatype Coverage = Complete | Debt | Broken

  datatype Outcome = Success(target: nat, covered: nat, recovery: Option<nat>) | Failed

  datatype Happening =
    | Queued(id: nat, requested: nat)
    | Raised(recovery: nat)
    | Drained(bound: nat, progress: Option<Progress>)
    | Completed(bound: nat, coverage: Coverage)
    | Persisted(ok: bool)
    | Answered(id: nat, outcome: Outcome)

  /** What the outside does during one cycle; the drain and the coverage check answer for the bound they are given. */
  datatype Input = Input(
    cancelled: set<nat>,
    messages: seq<Message>,
    stopping: bool,
    repairing: bool,
    due: bool,
    dirty: nat,
    drain: nat -> Option<Progress>,
    coverage: nat -> Coverage,
    persisted: bool)

  type Trace = seq<Happening>

  // ----- What the trace must show -----

  predicate Unanswered(t: Trace, id: nat) {
    forall j :: 0 <= j < |t| && t[j].Answered? ==> t[j].id != id
  }

  predicate NeverQueued(t: Trace, id: nat) {
    forall j :: 0 <= j < |t| && t[j].Queued? ==> t[j].id != id
  }

  /** Every recovery raised in `t` after `i` is within both bounds. */
  predicate RaisedWithin(t: Trace, i: nat, bound: nat, recovery: Option<nat>) {
    forall k :: i < k < |t| && t[k].Raised? ==> t[k].recovery <= bound && recovery.Some? && t[k].recovery <= recovery.value
  }

  predicate WaitsSince(t: Trace, i: nat, r: Request) {
    && i < |t| && t[i] == Queued(r.id, r.requested) && r.requested <= r.target
    && RaisedWithin(t, i, r.target, r.recovery)
    && (r.recovery.Some? ==> exists k :: i < k < |t| && t[k] == Raised(r.recovery.value))
  }

  /** A queued request nobody has answered, whose target covers all that was raised since. */
  ghost predicate Waits(t: Trace, r: Request) {
    Unanswered(t, r.id) && exists i: nat :: WaitsSince(t, i, r)
  }

  predicate Clean(p: Progress) {
    p.failures == [] && !p.remaining
  }

  /** A clean drain up to `bound`, complete coverage up to it and a persist, with nothing but raises and answers between. */
  ghost predicate CertifiedBy(t: Trace, k: nat, m: nat, bound: nat) {
    && k < m && m + 1 < |t|
    && t[k].Drained? && t[k].bound == bound && t[k].progress.Some? && Clean(t[k].progress.value)
    && (forall x :: k < x < m ==> t[x].Raised?)
    && t[m] == Completed(bound, Complete) && t[m + 1] == Persisted(true)
    && (forall x :: m + 1 < x < |t| ==> t[x].Answered?)
  }

  ghost predicate Certified(t: Trace, bound: nat) {
    exists k: nat, m: nat :: CertifiedBy(t, k, m, bound)
  }

  /** A receipt covers its request and every recovery raised while the request waited. */
  predicate Covers(t: Trace, i: nat, id: nat, o: Outcome)
    requires o.Success?
  {
    && i < |t| && t[i] == Queued(id, o.target) && o.target <= o.covered && RaisedWithin(t, i, o.covered, o.recovery)
    && (o.recovery.Some? ==> exists k :: i < k < |t| && t[k] == Raised(o.recovery.value))
  }

  /** Answers are given once, to queued requests; successes are covered and certified. */
  ghost predicate Sound(t: Trace)
    decreases |t|
  {
    t == [] ||
    var n := |t| - 1;
    && Sound(t[..n])
    && (t[n].Queued? ==> NeverQueued(t[..n], t[n].id))
    && (t[n].Answered? ==>
          && Unanswered(t[..n], t[n].id) && !NeverQueued(t[..n], t[n].id)
          && (t[n].outcome.Success? ==>
                Certified(t[..n], t[n].outcome.covered) && exists i: nat :: Covers(t[..n], i, t[n].id, t[n].outcome)))
  }

  lemma SoundLonger(t: Trace, h: Happening)
    requires Sound(t)
    requires h.Queued? ==> NeverQueued(t, h.id)
    requires h.Answered? ==> Unanswered(t, h.id) && !NeverQueued(t, h.id)
    requires h.Answered? && h.outcome.Success? ==> Certified(t, h.outcome.covered) && exists i: nat :: Covers(t, i, h.id, h.outcome)
    ensures Sound(t + [h])
  {
    assert (t + [h])[..|t|] == t;
  }

  lemma {:induction false} AnsweredWasQueued(t: Trace, id: nat)
    requires Sound(t) && NeverQueued(t, id)
    ensures Unanswered(t, id)
  {
    if t != [] {
      var n := |t| - 1;
      assert forall j :: 0 <= j < n ==> t[..n][j] == t[j];
      AnsweredWasQueued(t[..n], id);
    }
  }

  /** No request is answered twice, and none is queued twice. */
  ghost predicate EachOnce(t: Trace) {
    forall i, j :: 0 <= i < j < |t| ==>
                     (t[i].Answered? && t[j].Answered? ==> t[i].id != t[j].id) && (t[i].Queued? && t[j].Queued? ==> t[i].id != t[j].id)
  }

  /** Every successful receipt covers its request and all raised while it waited, and follows its certificate. */
  ghost predicate ReceiptsHold(t: Trace) {
    forall j :: 0 <= j < |t| && t[j].Answered? && t[j].outcome.Success? ==>
                  Certified(t[..j], t[j].outcome.covered) && exists i: nat :: Covers(t[..j], i, t[j].id, t[j].outcome)
  }

  lemma SoundMeans(t: Trace)
    requires Sound(t)
    ensures EachOnce(t) && ReceiptsHold(t)
  {
    forall i, j | 0 <= i < j < |t|
      ensures (t[i].Answered? && t[j].Answered? ==> t[i].id != t[j].id) && (t[i].Queued? && t[j].Queued? ==> t[i].id != t[j].id)
    {
      AnsweredOnce(t, i, j);
    }
    forall j | 0 <= j < |t| && t[j].Answered? && t[j].outcome.Success?
      ensures Certified(t[..j], t[j].outcome.covered) && exists i: nat :: Covers(t[..j], i, t[j].id, t[j].outcome)
    {
      ReceiptsAreSound(t, j);
    }
  }

  lemma {:induction false} AnsweredOnce(t: Trace, i: nat, j: nat)
    requires Sound(t) && i < j < |t|
    ensures t[i].Answered? && t[j].Answered? ==> t[i].id != t[j].id
    ensures t[i].Queued? && t[j].Queued? ==> t[i].id != t[j].id
  {
    var n := |t| - 1;
    assert forall k :: 0 <= k < n ==> t[..n][k] == t[k];
    if j < n {
      AnsweredOnce(t[..n], i, j);
    }
  }

  lemma {:induction false} ReceiptsAreSound(t: Trace, j: nat)
    requires Sound(t) && j < |t| && t[j].Answered? && t[j].outcome.Success?
    ensures Certified(t[..j], t[j].outcome.covered) && exists i: nat :: Covers(t[..j], i, t[j].id, t[j].outcome)
  {
    var n := |t| - 1;
    if j < n {
      ReceiptsAreSound(t[..n], j);
      assert t[..n][..j] == t[..j];
    }
  }

  /** From one trace to a longer one, only these ids were queued. */
  ghost predicate OnlyQueues(older: Trace, newer: Trace, ids: set<nat>) {
    older <= newer && forall id :: NeverQueued(older, id) && id !in ids ==> NeverQueued(newer, id)
  }

  lemma NotQueuing(t: Trace, h: Happening)
    requires !h.Queued?
    ensures OnlyQueues(t, t + [h], {})
  {
    assert forall k :: 0 <= k < |t| ==> (t + [h])[k] == t[k];
  }

  // ----- Waiting requests -----

  predicate DistinctIds(rs: seq<Request>) {
    forall i, j :: 0 <= i < j < |rs| ==> rs[i].id != rs[j].id
  }

  ghost predicate AllWait(t: Trace, rs: seq<Request>) {
    DistinctIds(rs) && forall i :: 0 <= i < |rs| ==> Waits(t, rs[i])
  }

  /** Waiting goes on through anything but an answer or a recovery. */
  lemma StillWaits(t: Trace, h: Happening, r: Request)
    requires Waits(t, r) && !h.Raised? && (h.Answered? ==> h.id != r.id)
    ensures Waits(t + [h], r)
  {
    var i: nat :| WaitsSince(t, i, r);
    var longer := t + [h];
    assert forall k :: 0 <= k < |t| ==> longer[k] == t[k];
    if r.recovery.Some? {
      var k :| i < k < |t| && t[k] == Raised(r.recovery.value);
      assert longer[k] == Raised(r.recovery.value);
    }
    assert WaitsSince(longer, i, r);
  }

  lemma AllStillWait(t: Trace, h: Happening, rs: seq<Request>)
    requires AllWait(t, rs) && !h.Raised? && !h.Answered?
    ensures AllWait(t + [h], rs)
  {
    forall i | 0 <= i < |rs| ensures Waits(t + [h], rs[i]) {
      StillWaits(t, h, rs[i]);
    }
  }

  function Lift(r: Request, recovery: nat): Request {
    r.(target := if r.target < recovery then recovery else r.target,
       recovery := Some(if r.recovery.Some? && r.recovery.value > recovery then r.recovery.value else recovery))
  }

  lemma LiftedWaits(t: Trace, r: Request, recovery: nat)
    requires Waits(t, r)
    ensures Waits(t + [Raised(recovery)], Lift(r, recovery))
  {
    var i: nat :| WaitsSince(t, i, r);
    var longer, lifted := t + [Raised(recovery)], Lift(r, recovery);
    assert forall k :: 0 <= k < |t| ==> longer[k] == t[k];
    if lifted.recovery.value == recovery {
      assert longer[|t|] == Raised(lifted.recovery.value);
    } else {
      var k :| i < k < |t| && t[k] == Raised(r.recovery.value);
      assert longer[k] == Raised(lifted.recovery.value);
    }
    assert WaitsSince(longer, i, lifted);
  }

  lemma NewWaits(t: Trace, id: nat, requested: nat)
    requires Unanswered(t, id)
    ensures Waits(t + [Queued(id, requested)], Request(id, requested, requested, None))
  {
    assert WaitsSince(t + [Queued(id, requested)], |t|, Request(id, requested, requested, None));
  }

  function ReceiptFor(r: Request, covered: nat): Outcome {
    Success(r.requested, covered, r.recovery)
  }

  /** A waiting request whose target is reached may have its receipt. */
  lemma ReachedIsCovered(t: Trace, r: Request, covered: nat)
    requires Waits(t, r) && r.target <= covered
    ensures exists i: nat :: Covers(t, i, r.id, ReceiptFor(r, covered))
  {
    var i: nat :| WaitsSince(t, i, r);
    assert Covers(t, i, r.id, ReceiptFor(r, covered));
  }

  lemma StillCertified(t: Trace, h: Happening, bound: nat)
    requires Certified(t, bound) && h.Answered?
    ensures Certified(t + [h], bound)
  {
    var k: nat, m: nat :| CertifiedBy(t, k, m, bound);
    assert forall x :: 0 <= x < |t| ==> (t + [h])[x] == t[x];
    assert CertifiedBy(t + [h], k, m, bound);
  }

  // ----- What one turn adds to the trace -----

  predicate AddsAnswers(older: Trace, newer: Trace) {
    older <= newer && forall k :: |older| <= k < |newer| ==> newer[k].Answered?
  }

  predicate AddsFinish(older: Trace, newer: Trace, target: nat, input: Input) {
    older <= newer
    && forall k :: |older| <= k < |newer| ==>
                     newer[k].Answered? || newer[k] == Completed(target, input.coverage(target)) || newer[k] == Persisted(input.persisted)
  }

  /** The trace tells what the outside answered, and every recovery a drain reports is raised at once. */
  predicate Tells(newer: Trace, k: nat, input: Input)
    requires k < |newer|
  {
    match newer[k]
    case Drained(bound, p) =>
      p == input.drain(bound) && (p.Some? && p.value.recovery.Some? ==> k + 1 < |newer| && newer[k + 1] == Raised(p.value.recovery.value))
    case Completed(bound, coverage) => coverage == input.coverage(bound)
    case Persisted(ok) => ok == input.persisted
    case Queued(id, requested) => Flush(id, requested, false) in BeforeStop(input.messages)
    case _ => true
  }

  ghost predicate TellsAll(older: Trace, newer: Trace, input: Input) {
    older <= newer && forall k :: |older| <= k < |newer| ==> Tells(newer, k, input)
  }

  /** The messages up to the first stop. */
  function BeforeStop(messages: seq<Message>): seq<Message> {
    if messages == [] || messages[0] == Stop then [] else [messages[0]] + BeforeStop(messages[1..])
  }

  lemma {:induction false} BeforeStopIs(messages: seq<Message>, n: nat)
    requires n <= |messages| && Stop !in messages[..n] && (n < |messages| ==> messages[n] == Stop)
    ensures BeforeStop(messages) == messages[..n]
  {
    if n > 0 {
      assert messages[0] == messages[..n][0];
      assert messages[1..][..n - 1] == messages[..n][1..];
      BeforeStopIs(messages[1..], n - 1);
      assert [messages[0]] + messages[..n][1..] == messages[..n];
    }
  }

  /** The requests a round of messages brings, those already cancelled aside. */
  function Arrived(messages: seq<Message>): seq<Request> {
    if messages == [] then []
    else
      var last := messages[|messages| - 1];
      Arrived(messages[..|messages| - 1])
      + if last.Flush? && !last.cancelled then [Request(last.id, last.requested, last.requested, None)] else []
  }

  /** How they enter the trace. */
  function Queueing(messages: seq<Message>): Trace {
    if messages == [] then []
    else
      var last := messages[|messages| - 1];
      Queueing(messages[..|messages| - 1]) + if last.Flush? && !last.cancelled then [Queued(last.id, last.requested)] else []
  }

  lemma {:induction false} QueueingIs(messages: seq<Message>)
    ensures forall h :: h in Queueing(messages) ==> h.Queued?
    ensures forall id, requested :: Queued(id, requested) in Queueing(messages) <==> Flush(id, requested, false) in messages
  {
    if messages != [] {
      var front, last := messages[..|messages| - 1], messages[|messages| - 1];
      QueueingIs(front);
      assert messages == front + [last];
    }
  }

  lemma {:induction false} ArrivedIs(messages: seq<Message>, id: nat, requested: nat)
    requires Flush(id, requested, false) in messages
    ensures Request(id, requested, requested, None) in Arrived(messages)
  {
    var front, last := messages[..|messages| - 1], messages[|messages| - 1];
    assert messages == front + [last];
    if last != Flush(id, requested, false) {
      ArrivedIs(front, id, requested);
    }
  }

  lemma QueueingTells(older: Trace, newer: Trace, input: Input)
    requires older + Queueing(BeforeStop(input.messages)) <= newer
    requires TellsAll(older + Queueing(BeforeStop(input.messages)), newer, input)
    ensures TellsAll(older, newer, input)
  {
    var queued := Queueing(BeforeStop(input.messages));
    QueueingIs(BeforeStop(input.messages));
    forall k | |older| <= k < |older + queued| ensures Tells(newer, k, input) {
      assert newer[k] == (older + queued)[k] == queued[k - |older|];
      assert queued[k - |older|] in queued;
    }
  }

  /** One message further in a round. */
  lemma RoundLonger(before: seq<Request>, older: Trace, messages: seq<Message>, n: nat)
    requires n < |messages|
    ensures
      var last := messages[n];
      older + Queueing(messages[..n + 1])
      == older + Queueing(messages[..n]) + if last.Flush? && !last.cancelled then [Queued(last.id, last.requested)] else []
    ensures Stop in messages[..n + 1] <==> Stop in messages[..n] || messages[n] == Stop
    ensures (exists m :: m in messages[..n + 1] && Wakes(m)) <==> (exists m :: m in messages[..n] && Wakes(m)) || Wakes(messages[n])
    ensures
      var last := messages[n];
      before + Arrived(messages[..n + 1])
      == before + Arrived(messages[..n]) + if last.Flush? && !last.cancelled then [Request(last.id, last.requested, last.requested, None)] else []
  {
    assert messages[..n + 1] == messages[..n] + [messages[n]];
    assert messages[..n + 1][..n] == messages[..n];
    assert messages[n] in messages[..n + 1];
  }

  predicate Wakes(m: Message) {
    m.Wake? || (m.Flush? && !m.cancelled)
  }

  // ----- The worker -----

  /** A permanent failure is owed at or before the target. */
  predicate Doomed(failures: seq<Failure>, target: nat) {
    exists i :: 0 <= i < |failures| && failures[i].retryAt.None? && failures[i].owedFrom <= target
  }

  /** The earliest retry time among the failures that have one. */
  predicate IsRetryTime(failures: seq<Failure>, r: Option<nat>) {
    && (r.None? ==> forall i :: 0 <= i < |failures| ==> failures[i].retryAt.None?)
    && (r.Some? ==> exists i :: 0 <= i < |failures| && failures[i].retryAt == r)
    && (r.Some? ==> forall i :: 0 <= i < |failures| && failures[i].retryAt.Some? ==> r.value <= failures[i].retryAt.value)
  }

  method RetryTime(failures: seq<Failure>) returns (r: Option<nat>)
    ensures IsRetryTime(failures, r)
  {
    r := None;
    for i := 0 to |failures|
      invariant IsRetryTime(failures[..i], r)
    {
      var longer := failures[..i + 1];
      assert forall j :: 0 <= j < i ==> longer[j] == failures[..i][j];
      assert longer[i] == failures[i];
      if r.Some? {
        var j :| 0 <= j < i && failures[..i][j].retryAt == r;
        assert longer[j].retryAt == r;
      }
      if failures[i].retryAt.Some? && (r.None? || failures[i].retryAt.value < r.value) {
        r := failures[i].retryAt;
      }
    }
    assert failures[..|failures|] == failures;
  }

  /** The least target of the waiting requests. */
  method LeastTarget(rs: seq<Request>) returns (target: nat)
    requires rs != []
    ensures (exists i :: 0 <= i < |rs| && rs[i].target == target) && forall i :: 0 <= i < |rs| ==> target <= rs[i].target
  {
    target := rs[0].target;
    for i := 1 to |rs|
      invariant (exists j :: 0 <= j < i && rs[j].target == target) && forall j :: 0 <= j < i ==> target <= rs[j].target
    {
      if rs[i].target < target {
        target := rs[i].target;
      }
    }
  }

  /** Everyone who waits in a turn: those who have not given up, and those who just arrived. */
  function Waiting(pending: seq<Request>, input: Input): set<Request> {
    (set r | r in pending && r.id !in input.cancelled) + (set r | r in Arrived(BeforeStop(input.messages)))
  }

  /** A turn drains to the least waiting target, or to the queue's end when nobody waits, but at least to what is certified. */
  ghost predicate IsBound(waiting: set<Request>, certified: Option<nat>, dirty: nat, bound: nat) {
    && (certified.Some? ==> certified.value <= bound)
    && if waiting == {} then dirty <= bound && (bound == dirty || certified == Some(bound))
       else (exists r :: r in waiting && r.target <= bound) && (certified == Some(bound) || forall r :: r in waiting ==> bound <= r.target)
  }

  predicate IsListed(rs: seq<Request>, id: nat) {
    exists i :: 0 <= i < |rs| && rs[i].id == id
  }

  /** Everyone who waited still waits or has an answer. */
  ghost predicate NoneLost(before: seq<Request>, now: seq<Request>, t: Trace) {
    forall r :: r in before ==> IsListed(now, r.id) || !Unanswered(t, r.id)
  }

  lemma StillNoneLost(before: seq<Request>, mid: seq<Request>, older: Trace, now: seq<Request>, newer: Trace)
    requires NoneLost(before, mid, older) && NoneLost(mid, now, newer) && older <= newer
    ensures NoneLost(before, now, newer)
  {
    forall r | r in before ensures IsListed(now, r.id) || !Unanswered(newer, r.id) {
      if IsListed(mid, r.id) {
        var i :| 0 <= i < |mid| && mid[i].id == r.id;
        assert mid[i] in mid;
      } else {
        var j :| 0 <= j < |older| && older[j].Answered? && older[j].id == r.id;
        assert newer[j] == older[j];
      }
    }
  }

  /** A request that has its answer, waits for it, or gave up in one of the first `n` turns. */
  ghost predicate IsSettled(pending: seq<Request>, t: Trace, inputs: seq<Input>, n: nat, id: nat)
    requires n <= |inputs|
  {
    IsListed(pending, id) || !Unanswered(t, id) || exists i :: 0 <= i < n && id in inputs[i].cancelled
  }

  /** It was waiting before, or was queued since. */
  ghost predicate IsKnown(before: seq<Request>, older: Trace, t: Trace, id: nat) {
    IsListed(before, id) || exists k :: |older| <= k < |t| && t[k].Queued? && t[k].id == id
  }

  ghost predicate AllSettled(before: seq<Request>, older: Trace, pending: seq<Request>, t: Trace, inputs: seq<Input>, n: nat)
    requires n <= |inputs|
  {
    forall id :: IsKnown(before, older, t, id) ==> IsSettled(pending, t, inputs, n, id)
  }

  lemma OldSettled(rs: seq<Request>, older: Trace, now: seq<Request>, newer: Trace, inputs: seq<Input>, n: nat, id: nat)
    requires n < |inputs| && older <= newer && IsSettled(rs, older, inputs, n, id)
    requires forall r :: r in Waiting(rs, inputs[n]) ==> IsListed(now, r.id) || !Unanswered(newer, r.id)
    ensures IsSettled(now, newer, inputs, n + 1, id)
  {
    if IsListed(rs, id) {
      var i :| 0 <= i < |rs| && rs[i].id == id;
      assert id !in inputs[n].cancelled ==> rs[i] in Waiting(rs, inputs[n]);
    } else if !Unanswered(older, id) {
      var j :| 0 <= j < |older| && older[j].Answered? && older[j].id == id;
      assert newer[j] == older[j];
    }
  }

  lemma NewSettled(rs: seq<Request>, older: Trace, now: seq<Request>, newer: Trace, inputs: seq<Input>, n: nat, k: nat)
    requires n < |inputs| && TellsAll(older, newer, inputs[n]) && |older| <= k < |newer| && newer[k].Queued?
    requires forall r :: r in Waiting(rs, inputs[n]) ==> IsListed(now, r.id) || !Unanswered(newer, r.id)
    ensures IsSettled(now, newer, inputs, n + 1, newer[k].id)
  {
    var id, requested := newer[k].id, newer[k].requested;
    assert Tells(newer, k, inputs[n]);
    ArrivedIs(BeforeStop(inputs[n].messages), id, requested);
    assert Request(id, requested, requested, None) in Waiting(rs, inputs[n]);
  }

  /** One turn settles what it finds and what it queues. */
  lemma TurnSettles(before: seq<Request>, start: Trace, rs: seq<Request>, older: Trace, now: seq<Request>, newer: Trace,
                    inputs: seq<Input>, n: nat)
    requires n < |inputs| && start <= older && AllSettled(before, start, rs, older, inputs, n) && TellsAll(older, newer, inputs[n])
    requires forall r :: r in Waiting(rs, inputs[n]) ==> IsListed(now, r.id) || !Unanswered(newer, r.id)
    ensures AllSettled(before, start, now, newer, inputs, n + 1)
  {
    assert forall k :: 0 <= k < |older| ==> older[k] == newer[k];
    forall id | IsKnown(before, start, newer, id) ensures IsSettled(now, newer, inputs, n + 1, id) {
      if IsKnown(before, start, older, id) {
        OldSettled(rs, older, now, newer, inputs, n, id);
      } else {
        var k :| |start| <= k < |newer| && newer[k].Queued? && newer[k].id == id;
        NewSettled(rs, older, now, newer, inputs, n, k);
      }
    }
  }

  lemma NobodyLost(rs: seq<Request>)
    ensures forall newer: Trace :: NoneLost(rs, rs, newer)
  {
    forall r | r in rs ensures IsListed(rs, r.id) {
      var i :| 0 <= i < |rs| && rs[i] == r;
    }
  }

  /** The receipt of a request whose drain reported this. */
  function ReceiptAfter(r: Request, bound: nat, progress: Progress): Outcome {
    ReceiptFor(if progress.recovery.Some? then Lift(r, progress.recovery.value) else r, bound)
  }

  /**
   The turn drained up to its bound. If the drain was clean and reported no recovery
   past the bound, and the index is complete and persisted up to it, everyone
   within the bound has a receipt for what was asked, with the latest recovery.
   */
  ghost predicate DrainsTo(waiting: set<Request>, certified: Option<nat>, input: Input, t: Trace, k: nat, bound: nat) {
    var p := input.drain(bound);
    && k < |t| && t[k] == Drained(bound, p) && IsBound(waiting, certified, input.dirty, bound)
    && (p.Some? && p.value.failures == [] && !p.value.remaining && (p.value.recovery.Some? ==> p.value.recovery.value <= bound)
        && input.coverage(bound) == Complete && input.persisted ==>
          forall r :: r in waiting && r.target <= bound ==>
                        exists recovery :: Answered(r.id, Success(r.requested, bound, recovery)) in t && IsLatest(r, p.value, recovery))
  }

  /** The largest recovery raised while the request waited, this drain's included. */
  predicate IsLatest(r: Request, p: Progress, recovery: Option<nat>) {
    if p.recovery.None? then recovery == r.recovery
    else recovery.Some? && recovery.value >= p.recovery.value && (r.recovery.Some? ==> recovery.value >= r.recovery.value)
         && (recovery == p.recovery || recovery == r.recovery)
  }

  lemma ReceiptsAreLatest(waiting: set<Request>, input: Input, t: Trace, bound: nat)
    ensures
      var p := input.drain(bound);
      p.Some? && (forall r :: r in waiting && r.target <= bound ==> Answered(r.id, ReceiptAfter(r, bound, p.value)) in t) ==>
        forall r :: r in waiting && r.target <= bound ==>
                      exists recovery :: Answered(r.id, Success(r.requested, bound, recovery)) in t && IsLatest(r, p.value, recovery)
  {
    var p := input.drain(bound);
    if p.Some? && forall r :: r in waiting && r.target <= bound ==> Answered(r.id, ReceiptAfter(r, bound, p.value)) in t {
      forall r | r in waiting && r.target <= bound
        ensures exists recovery :: Answered(r.id, Success(r.requested, bound, recovery)) in t && IsLatest(r, p.value, recovery)
      {
        var receipt := ReceiptAfter(r, bound, p.value);
        assert Answered(r.id, receipt) in t && IsLatest(r, p.value, receipt.recovery);
      }
    }
  }

  function RaisedBy(progress: Progress): Trace {
    if progress.recovery.Some? then [Raised(progress.recovery.value)] else []
  }

  lemma DrainTells(older: Trace, newer: Trace, target: nat, input: Input)
    requires input.drain(target).Some?
    requires AddsFinish(older + [Drained(target, input.drain(target))] + RaisedBy(input.drain(target).value), newer, target, input)
    ensures TellsAll(older, newer, input)
  {
    var p := input.drain(target).value;
    var start := older + [Drained(target, Some(p))] + RaisedBy(p);
    assert forall k :: 0 <= k < |start| ==> newer[k] == start[k];
    forall k | |older| <= k < |newer| ensures Tells(newer, k, input) {
      assert k == |older| ==> newer[k] == Drained(target, Some(p));
      assert p.recovery.Some? ==> newer[|older| + 1] == Raised(p.recovery.value);
    }
  }

  class Worker {
    var pending: seq<Request>
    var active: bool
    var certified: Option<nat>
    var retryAt: Option<nat>
    ghost var trace: Trace

    ghost predicate Valid()
      reads this
    {
      Sound(trace) && AllWait(trace, pending)
    }

    constructor ()
      ensures Valid() && pending == [] && trace == []
    {
      pending, active, certified, retryAt, trace := [], false, None, None, [];
    }

    /** Something happened that neither answers nor lifts a request. */
    ghost method Note(h: Happening)
      requires Valid() && !h.Raised? && !h.Answered? && !h.Queued?
      modifies this`trace
      ensures Valid() && trace == old(trace) + [h] && OnlyQueues(old(trace), trace, {})
    {
      SoundLonger(trace, h);
      AllStillWait(trace, h, pending);
      NotQueuing(trace, h);
      trace := trace + [h];
    }

    method Enqueue(id: nat, requested: nat)
      requires Valid() && NeverQueued(trace, id)
      modifies this`pending, this`trace
      ensures Valid() && trace == old(trace) + [Queued(id, requested)] && OnlyQueues(old(trace), trace, {id})
      ensures pending == old(pending) + [Request(id, requested, requested, None)]
    {
      AnsweredWasQueued(trace, id);
      SoundLonger(trace, Queued(id, requested));
      AllStillWait(trace, Queued(id, requested), pending);
      NewWaits(trace, id, requested);
      forall i | 0 <= i < |pending| ensures pending[i].id != id {
        WaitingWasQueued(trace, pending[i]);
      }
      trace := trace + [Queued(id, requested)];
      pending := pending + [Request(id, requested, requested, None)];
    }

    /** Takes one round of messages; a stop ends the round. */
    method Collect(messages: seq<Message>) returns (stop: bool, woke: bool)
      requires Valid() && |messages| <= MAX_CONTROL_MESSAGES && FreshIds(trace, messages)
      modifies this`pending, this`trace
      ensures Valid() && OnlyQueues(old(trace), trace, FlushIds(messages)) && trace == old(trace) + Queueing(BeforeStop(messages))
      ensures stop <==> Stop in messages
      ensures pending == old(pending) + Arrived(BeforeStop(messages))
      ensures woke <==> exists m :: m in BeforeStop(messages) && Wakes(m)
    {
      woke := false;
      for i := 0 to |messages|
        invariant Valid() && OnlyQueues(old(trace), trace, FlushIds(messages)) && Stop !in messages[..i]
        invariant trace == old(trace) + Queueing(messages[..i])
        invariant FreshFrom(trace, messages, i)
        invariant pending == old(pending) + Arrived(messages[..i])
        invariant woke <==> exists m :: m in messages[..i] && Wakes(m)
      {
        RoundLonger(old(pending), old(trace), messages, i);
        if messages[i] == Stop {
          BeforeStopIs(messages, i);
          return true, woke;
        }
        ghost var before := trace;
        var live := Take(messages[i], FlushIds(messages));
        StillFresh(old(trace), before, trace, messages, i);
        woke := woke || live;
      }
      BeforeStopIs(messages, |messages|);
      assert messages[..|messages|] == messages;
      return false, woke;
    }

    /** One message of a round. */
    method Take(m: Message, ghost ids: set<nat>) returns (wakes: bool)
      requires Valid() && m != Stop && (m.Flush? ==> NeverQueued(trace, m.id) && m.id in ids)
      modifies this`pending, this`trace
      ensures Valid() && OnlyQueues(old(trace), trace, if m.Flush? then {m.id} else {})
      ensures wakes == Wakes(m)
      ensures trace == old(trace) + if m.Flush? && !m.cancelled then [Queued(m.id, m.requested)] else []
      ensures pending == old(pending) + if m.Flush? && !m.cancelled then [Request(m.id, m.requested, m.requested, None)] else []
    {
      match m {
        case Wake => return true;
        case Flush(id, requested, cancelled) =>
          if !cancelled {
            Enqueue(id, requested);
          }
          return !cancelled;
      }
    }

    /** Callers that gave up leave without an answer. */
    method DropCancelled(cancelled: set<nat>)
      requires Valid()
      modifies this`pending
      ensures Valid() && forall r :: r in pending <==> r in old(pending) && r.id !in cancelled
    {
      var rs, kept: seq<Request> := pending, [];
      for i := 0 to |rs|
        invariant AllWait(trace, kept + rs[i..])
        invariant forall r :: r in kept <==> r in rs[..i] && r.id !in cancelled
      {
        assert rs[..i + 1] == rs[..i] + [rs[i]];
        WithoutOne(trace, kept, rs, i);
        assert kept + [rs[i]] + rs[i + 1..] == kept + rs[i..];
        if rs[i].id !in cancelled {
          kept := kept + [rs[i]];
        }
      }
      assert rs[..|rs|] == rs && kept + rs[|rs|..] == kept;
      pending := kept;
    }

    /** Every waiting request is lifted over a raised recovery. */
    method Raise(recovery: nat)
      requires Valid()
      modifies this`pending, this`trace, this`certified
      ensures Valid() && trace == old(trace) + [Raised(recovery)] && OnlyQueues(old(trace), trace, {})
      ensures certified == None && |pending| == |old(pending)|
      ensures forall i :: 0 <= i < |pending| ==> pending[i] == Lift(old(pending)[i], recovery)
      ensures NoneLost(old(pending), pending, trace)
    {
      certified := None;
      var rs, lifted: seq<Request> := pending, [];
      for i := 0 to |rs|
        invariant |lifted| == i && forall j :: 0 <= j < i ==> lifted[j] == Lift(rs[j], recovery)
      {
        lifted := lifted + [Lift(rs[i], recovery)];
      }
      SoundLonger(trace, Raised(recovery));
      NotQueuing(trace, Raised(recovery));
      AllLifted(trace, rs, lifted, recovery);
      trace := trace + [Raised(recovery)];
      assert NoneLost(rs, lifted, trace) by {
        forall r | r in rs ensures IsListed(lifted, r.id) {
          var i :| 0 <= i < |rs| && rs[i] == r;
          assert lifted[i].id == r.id;
        }
      }
      pending := lifted;
    }

    /** Answers the requests in order; `kept` are those without a verdict. */
    method AnswerInOrder(rs: seq<Request>, verdict: Request -> Option<Outcome>, ghost bound: nat) returns (kept: seq<Request>)
      requires Sound(trace) && AllWait(trace, rs)
      requires forall r :: r in rs && verdict(r).Some? && verdict(r).value.Success? ==>
                 verdict(r).value == ReceiptFor(r, bound) && r.target <= bound && Certified(trace, bound)
      modifies this`trace
      ensures Sound(trace) && AllWait(trace, kept) && OnlyQueues(old(trace), trace, {})
      ensures kept == Kept(rs, verdict) && trace == old(trace) + Said(rs, verdict)
    {
      kept := [];
      for i := 0 to |rs|
        invariant Sound(trace) && AllWait(trace, kept + rs[i..]) && OnlyQueues(old(trace), trace, {})
        invariant old(Certified(trace, bound)) ==> Certified(trace, bound)
        invariant kept == Kept(rs[..i], verdict) && trace == old(trace) + Said(rs[..i], verdict)
      {
        WithoutOne(trace, kept, rs, i);
        AnswersLonger(old(trace), rs, verdict, i);
        var outcome := verdict(rs[i]);
        if outcome.None? {
          kept := kept + [rs[i]];
        } else {
          AnswerKeeps(trace, rs[i], outcome.value, bound, kept + rs[i + 1..]);
          trace := trace + [Answered(rs[i].id, outcome.value)];
        }
      }
      assert rs[..|rs|] == rs && kept + rs[|rs|..] == kept;
    }

    /**
     Drains the waiting list: each request is answered by its verdict or kept
     without one. A success must be the receipt of a reached, certified bound.
     */
    method AnswerEach(verdict: Request -> Option<Outcome>, ghost bound: nat)
      requires Valid()
      requires forall r :: r in pending && verdict(r).Some? && verdict(r).value.Success? ==>
                 verdict(r).value == ReceiptFor(r, bound) && r.target <= bound && Certified(trace, bound)
      modifies this`pending, this`trace
      ensures Valid() && OnlyQueues(old(trace), trace, {}) && AddsAnswers(old(trace), trace)
      ensures forall r :: r in pending <==> r in old(pending) && verdict(r).None?
      ensures forall r :: r in old(pending) && verdict(r).Some? ==> Answered(r.id, verdict(r).value) in trace
      ensures (forall r :: r in old(pending) ==> verdict(r).Some?) ==> pending == []
      ensures NoneLost(old(pending), pending, trace)
    {
      AnsweredAll(trace, pending, verdict);
      NoneLostBy(trace, pending, verdict);
      pending := AnswerInOrder(pending, verdict, bound);
    }

    /** Everyone waiting gets a failure. */
    method FailAll()
      requires Valid()
      modifies this`pending, this`trace
      ensures Valid() && OnlyQueues(old(trace), trace, {}) && AddsAnswers(old(trace), trace) && pending == []
      ensures NoneLost(old(pending), pending, trace)
      ensures forall r :: r in old(pending) ==> Answered(r.id, Failed) in trace
    {
      AnswerEach((r: Request) => Some(Failed), 0);
    }

    /** `settle_search_failures`: permanent failures fail the requests they reach; the others set the retry time. */
    method SettleFailures(failures: seq<Failure>)
      requires Valid()
      modifies this`pending, this`trace, this`retryAt
      ensures Valid() && OnlyQueues(old(trace), trace, {}) && AddsAnswers(old(trace), trace)
      ensures IsRetryTime(failures, retryAt)
      ensures forall r :: r in pending <==>
                            r in old(pending) && forall i :: 0 <= i < |failures| && failures[i].retryAt.None? ==> failures[i].owedFrom > r.target
      ensures forall r, i :: r in old(pending) && 0 <= i < |failures| && failures[i].retryAt.None? && failures[i].owedFrom <= r.target ==>
                               Answered(r.id, Failed) in trace
      ensures NoneLost(old(pending), pending, trace)
    {
      retryAt := RetryTime(failures);
      AnswerEach((r: Request) => if Doomed(failures, r.target) then Some(Failed) else None, 0);
    }

    /** Everyone within the bound gets a receipt, if the bound is certified, or a failure. */
    method AnswerWithin(target: nat, ok: bool)
      requires Valid() && (ok ==> Certified(trace, target))
      modifies this`pending, this`trace
      ensures Valid() && OnlyQueues(old(trace), trace, {}) && AddsAnswers(old(trace), trace)
      ensures forall r :: r in pending <==> r in old(pending) && r.target > target
      ensures ok ==> forall r :: r in old(pending) && r.target <= target ==> Answered(r.id, ReceiptFor(r, target)) in trace
      ensures NoneLost(old(pending), pending, trace)
    {
      AnswerEach((r: Request) => if r.target > target then None else Some(if ok then ReceiptFor(r, target) else Failed), target);
    }

    /** After a clean drain: coverage, persist, and an answer to every request within the bound. */
    method FinishDrain(target: nat, covered: nat, input: Input, ghost at: nat)
      requires Valid() && CleanSince(trace, at, target)
      modifies this`pending, this`trace, this`certified, this`active
      ensures Valid() && OnlyQueues(old(trace), trace, {}) && AddsFinish(old(trace), trace, target, input)
      ensures forall r :: r in pending ==> r in old(pending)
      ensures old(pending) != [] && !input.coverage(target).Debt? ==> forall r :: r in pending <==> r in old(pending) && r.target > target
      ensures old(pending) != [] && input.coverage(target).Complete? && input.persisted ==>
                forall r :: r in old(pending) && r.target <= target ==> Answered(r.id, ReceiptFor(r, target)) in trace
      ensures input.coverage(target).Debt? ==> pending == old(pending)
      ensures NoneLost(old(pending), pending, trace)
    {
      NobodyLost(pending);
      if pending == [] && covered == 0 && certified == Some(target) {
        return;
      }
      var coverage := input.coverage(target);
      Note(Completed(target, coverage));
      if coverage.Debt? {
        active := true;
        return;
      }
      var ok := false;
      if coverage.Complete? {
        Note(Persisted(input.persisted));
        ok := input.persisted;
      }
      if ok {
        CleanIsCertified(trace, at, target);
        certified := Some(target);
      }
      AnswerWithin(target, ok);
    }

    /** The outcome of one drain. */
    method TakeProgress(target: nat, progress: Progress, input: Input)
      requires Valid() && trace != [] && trace[|trace| - 1] == Drained(target, Some(progress))
      modifies this`pending, this`trace, this`certified, this`active, this`retryAt
      ensures Valid() && OnlyQueues(old(trace), trace, {})
      ensures AddsFinish(old(trace) + RaisedBy(progress), trace, target, input)
      ensures Clean(progress) && (progress.recovery.Some? ==> progress.recovery.value <= target)
              && input.coverage(target).Complete? && input.persisted && old(pending) != [] ==>
                forall r :: r in old(pending) && r.target <= target ==> Answered(r.id, ReceiptAfter(r, target, progress)) in trace
      ensures NoneLost(old(pending), pending, trace)
    {
      ghost var at := |trace| - 1;
      NobodyLost(pending);
      if progress.recovery.Some? {
        Raise(progress.recovery.value);
        if progress.recovery.value > target {
          active := true;
          return;
        }
      }
      ghost var lifted, raised := pending, trace;
      if progress.failures != [] {
        SettleFailures(progress.failures);
        active := retryAt.None? && progress.covered != 0 && progress.remaining;
      } else {
        active := progress.remaining;
        if !progress.remaining {
          FinishDrain(target, progress.covered, input, at);
        } else {
          NobodyLost(pending);
        }
      }
      StillNoneLost(old(pending), lifted, raised, pending, trace);
      forall r | r in old(pending) ensures (if progress.recovery.Some? then Lift(r, progress.recovery.value) else r) in lifted {
        var i :| 0 <= i < |old(pending)| && old(pending)[i] == r;
        assert progress.recovery.Some? ==> lifted[i] == Lift(r, progress.recovery.value);
      }
    }

    /** The least waiting target, or the queue's end, but never before what is already certified. */
    method DrainTarget(dirty: nat, ghost waiting: set<Request>) returns (target: nat)
      requires forall r :: r in pending <==> r in waiting
      ensures IsBound(waiting, certified, dirty, target)
    {
      target := dirty;
      assert pending != [] ==> pending[0] in waiting;
      if pending != [] {
        target := LeastTarget(pending);
      }
      if certified.Some? && certified.value > target {
        target := certified.value;
      }
    }

    /** A drain up to the target; when it is clean and the index is complete and persisted, all within it are answered. */
    method DrainOnce(target: nat, input: Input)
      requires Valid()
      modifies this`pending, this`trace, this`certified, this`active, this`retryAt
      ensures Valid() && OnlyQueues(old(trace), trace, {}) && TellsAll(old(trace), trace, input)
      ensures old(trace) + [Drained(target, input.drain(target))] <= trace
      ensures
        var p := input.drain(target);
        p.Some? && Clean(p.value) && (p.value.recovery.Some? ==> p.value.recovery.value <= target)
        && input.coverage(target).Complete? && input.persisted && old(pending) != [] ==>
          forall r :: r in old(pending) && r.target <= target ==> Answered(r.id, ReceiptAfter(r, target, p.value)) in trace
      ensures NoneLost(old(pending), pending, trace)
    {
      var progress := input.drain(target);
      Note(Drained(target, progress));
      if progress.None? {
        FailAll();
        active := false;
      } else {
        TakeProgress(target, progress.value, input);
        DrainTells(old(trace), trace, target, input);
      }
    }

    /** Who waits this turn, and whether to stop or to go on at once. */
    method Gather(input: Input) returns (stop: bool, woke: bool)
      requires Valid() && |input.messages| <= MAX_CONTROL_MESSAGES && FreshIds(trace, input.messages)
      modifies this`pending, this`trace
      ensures Valid() && OnlyQueues(old(trace), trace, FlushIds(input.messages))
      ensures trace == old(trace) + Queueing(BeforeStop(input.messages))
      ensures forall r :: r in pending <==> r in Waiting(old(pending), input)
      ensures stop <==> Stop in input.messages
      ensures woke <==> exists m :: m in BeforeStop(input.messages) && Wakes(m)
    {
      DropCancelled(input.cancelled);
      stop, woke := Collect(input.messages);
    }

    /** One drain for those who wait. */
    method DrainFor(input: Input, ghost waiting: set<Request>) returns (ghost bound: nat)
      requires Valid() && forall r :: r in pending <==> r in waiting
      modifies this`pending, this`trace, this`certified, this`active, this`retryAt
      ensures Valid() && OnlyQueues(old(trace), trace, {}) && TellsAll(old(trace), trace, input)
      ensures DrainsTo(waiting, old(certified), input, trace, |old(trace)|, bound)
      ensures NoneLost(old(pending), pending, trace)
    {
      retryAt := None;
      var target := DrainTarget(input.dirty, waiting);
      DrainOnce(target, input);
      bound := target;
      ReceiptsAreLatest(waiting, input, trace, bound);
    }

    /** One turn of the worker's loop. */
    method Cycle(input: Input) returns (stopped: bool)
      requires Valid() && |input.messages| <= MAX_CONTROL_MESSAGES && FreshIds(trace, input.messages)
      modifies this
      ensures Valid() && OnlyQueues(old(trace), trace, FlushIds(input.messages)) && TellsAll(old(trace), trace, input)
      ensures old(trace) + Queueing(BeforeStop(input.messages)) <= trace
      ensures stopped <==> Stop in input.messages || input.stopping
      ensures stopped ==> pending == [] && forall r :: r in Waiting(old(pending), input) ==> Answered(r.id, Failed) in trace
      ensures !stopped && (old(retryAt).None? || input.repairing || input.due || exists m :: m in BeforeStop(input.messages) && Wakes(m)) ==>
                exists k, bound :: |old(trace)| <= k && DrainsTo(Waiting(old(pending), input), old(certified), input, trace, k, bound)
      ensures forall r :: r in Waiting(old(pending), input) ==> IsListed(pending, r.id) || !Unanswered(trace, r.id)
    {
      ghost var waiting := Waiting(pending, input);
      var stop, woke := Gather(input);
      if stop || input.stopping {
        FailAll();
        QueueingTells(old(trace), trace, input);
        return true;
      }
      if retryAt.Some? && !woke && !input.repairing && !input.due {
        NobodyLost(pending);
        QueueingTells(old(trace), trace, input);
        return false;
      }
      ghost var bound := DrainFor(input, waiting);
      QueueingTells(old(trace), trace, input);
      return false;
    }

    /**
     Any number of turns: no request is answered twice, and every successful receipt
     covers its request and every recovery raised while it waited, after a clean
     drain up to that bound, complete coverage and a persist. Everyone who asked
     has an answer, waits for it or gave up, and after a stop nobody waits.
     */
    method Work(inputs: seq<Input>) returns (turns: nat, stopped: bool)
      requires Valid() && forall i :: 0 <= i < |inputs| ==> |inputs[i].messages| <= MAX_CONTROL_MESSAGES
      requires FreshInputs(trace, inputs)
      modifies this
      ensures Valid() && old(trace) <= trace
      ensures EachOnce(trace) && ReceiptsHold(trace)
      ensures turns <= |inputs| && AllSettled(old(pending), old(trace), pending, trace, inputs, turns)
      ensures if stopped then turns > 0 && pending == [] else turns == |inputs|
      ensures stopped <==> exists i :: 0 <= i < |inputs| && (Stop in inputs[i].messages || inputs[i].stopping)
    {
      turns := 0;
      while turns < |inputs|
        invariant turns <= |inputs| && Valid() && old(trace) <= trace && FreshInputs(trace, inputs[turns..])
        invariant AllSettled(old(pending), old(trace), pending, trace, inputs, turns)
        invariant forall i :: 0 <= i < turns ==> Stop !in inputs[i].messages && !inputs[i].stopping
      {
        FreshNow(trace, inputs[turns..]);
        ghost var rs, older := pending, trace;
        stopped := Cycle(inputs[turns]);
        TurnSettles(old(pending), old(trace), rs, older, pending, trace, inputs, turns);
        FreshLater(older, trace, inputs[turns..]);
        assert inputs[turns..][1..] == inputs[turns + 1..];
        turns := turns + 1;
        if stopped {
          SoundMeans(trace);
          return;
        }
      }
      SoundMeans(trace);
      stopped := false;
    }
  }

  /** No id is used by two flush messages, in one round or in different ones. */
  ghost predicate FreshInputs(t: Trace, inputs: seq<Input>)
    decreases |inputs|
  {
    inputs != [] ==>
    && FreshIds(t, inputs[0].messages)
    && (forall i :: 0 < i < |inputs| ==> FlushIds(inputs[i].messages) !! FlushIds(inputs[0].messages))
    && FreshInputs(t, inputs[1..])
  }

  lemma FreshNow(t: Trace, inputs: seq<Input>)
    requires FreshInputs(t, inputs) && inputs != []
    ensures FreshIds(t, inputs[0].messages)
  {}

  /** The messages from `i` on bring no id that was queued before. */
  ghost predicate FreshFrom(t: Trace, messages: seq<Message>, i: nat) {
    forall j :: i <= j < |messages| && messages[j].Flush? ==> NeverQueued(t, messages[j].id)
  }

  lemma StillFresh(start: Trace, older: Trace, newer: Trace, messages: seq<Message>, i: nat)
    requires FreshIds(start, messages) && FreshFrom(older, messages, i) && i < |messages|
    requires OnlyQueues(start, older, FlushIds(messages))
    requires OnlyQueues(older, newer, if messages[i].Flush? then {messages[i].id} else {})
    ensures FreshFrom(newer, messages, i + 1) && OnlyQueues(start, newer, FlushIds(messages))
  {}

  lemma {:induction false} FreshStays(older: Trace, newer: Trace, ids: set<nat>, inputs: seq<Input>)
    requires FreshInputs(older, inputs) && OnlyQueues(older, newer, ids)
    requires forall i :: 0 <= i < |inputs| ==> FlushIds(inputs[i].messages) !! ids
    ensures FreshInputs(newer, inputs)
    decreases |inputs|
  {
    if inputs != [] {
      FreshStays(older, newer, ids, inputs[1..]);
      var messages := inputs[0].messages;
      forall i | 0 <= i < |messages| && messages[i].Flush? ensures NeverQueued(newer, messages[i].id) {
        assert messages[i].id in FlushIds(messages);
      }
    }
  }

  lemma FreshLater(older: Trace, newer: Trace, inputs: seq<Input>)
    requires FreshInputs(older, inputs) && inputs != [] && OnlyQueues(older, newer, FlushIds(inputs[0].messages))
    ensures FreshInputs(newer, inputs[1..])
  {
    FreshStays(older, newer, FlushIds(inputs[0].messages), inputs[1..]);
  }

  /** A clean drain up to the bound, and nothing but raises since. */
  ghost predicate CleanSince(t: Trace, at: nat, bound: nat) {
    && at < |t| && t[at].Drained? && t[at].bound == bound && t[at].progress.Some? && Clean(t[at].progress.value)
    && forall x :: at < x < |t| ==> t[x].Raised?
  }

  lemma CleanIsCertified(t: Trace, at: nat, bound: nat)
    requires |t| >= 2 && t[|t| - 2] == Completed(bound, Complete) && t[|t| - 1] == Persisted(true)
    requires CleanSince(t[..|t| - 2], at, bound)
    ensures Certified(t, bound)
  {
    var m: nat := |t| - 2;
    assert forall x :: 0 <= x < m ==> t[..m][x] == t[x];
    assert CertifiedBy(t, at, m, bound);
  }

  lemma AllLifted(t: Trace, rs: seq<Request>, lifted: seq<Request>, recovery: nat)
    requires AllWait(t, rs) && |lifted| == |rs| && forall j :: 0 <= j < |rs| ==> lifted[j] == Lift(rs[j], recovery)
    ensures AllWait(t + [Raised(recovery)], lifted)
  {
    forall i | 0 <= i < |rs| ensures Waits(t + [Raised(recovery)], lifted[i]) {
      LiftedWaits(t, rs[i], recovery);
    }
  }

  lemma AnswerKeeps(t: Trace, r: Request, o: Outcome, bound: nat, rest: seq<Request>)
    requires Sound(t) && Waits(t, r) && AllWait(t, rest) && forall x :: x in rest ==> x.id != r.id
    requires o.Success? ==> o == ReceiptFor(r, bound) && r.target <= bound && Certified(t, bound)
    ensures Sound(t + [Answered(r.id, o)]) && AllWait(t + [Answered(r.id, o)], rest)
    ensures OnlyQueues(t, t + [Answered(r.id, o)], {})
    ensures Certified(t, bound) ==> Certified(t + [Answered(r.id, o)], bound)
  {
    WaitingWasQueued(t, r);
    if o.Success? {
      ReachedIsCovered(t, r, bound);
    }
    SoundLonger(t, Answered(r.id, o));
    NotQueuing(t, Answered(r.id, o));
    forall i | 0 <= i < |rest| ensures Waits(t + [Answered(r.id, o)], rest[i]) {
      assert rest[i] in rest;
      StillWaits(t, Answered(r.id, o), rest[i]);
    }
    if Certified(t, bound) {
      StillCertified(t, Answered(r.id, o), bound);
    }
  }

  function FlushIds(messages: seq<Message>): set<nat> {
    set i | 0 <= i < |messages| && messages[i].Flush? :: messages[i].id
  }

  /** Every flush message brings an id of its own. */
  ghost predicate FreshIds(t: Trace, messages: seq<Message>) {
    && (forall i :: 0 <= i < |messages| && messages[i].Flush? ==> NeverQueued(t, messages[i].id))
    && forall i, j :: 0 <= i < j < |messages| && messages[i].Flush? && messages[j].Flush? ==> messages[i].id != messages[j].id
  }

  /** The requests a verdict leaves waiting, and the answers it gives, in order. */
  ghost function Kept(rs: seq<Request>, verdict: Request -> Option<Outcome>): seq<Request> {
    if rs == [] then []
    else
      var n := |rs| - 1;
      Kept(rs[..n], verdict) + if verdict(rs[n]).None? then [rs[n]] else []
  }

  ghost function Said(rs: seq<Request>, verdict: Request -> Option<Outcome>): Trace {
    if rs == [] then []
    else
      var n := |rs| - 1;
      Said(rs[..n], verdict) + if verdict(rs[n]).None? then [] else [Answered(rs[n].id, verdict(rs[n]).value)]
  }

  lemma AnswersLonger(t: Trace, rs: seq<Request>, verdict: Request -> Option<Outcome>, n: nat)
    requires n < |rs|
    ensures Kept(rs[..n + 1], verdict) == Kept(rs[..n], verdict) + if verdict(rs[n]).None? then [rs[n]] else []
    ensures t + Said(rs[..n + 1], verdict)
         == t + Said(rs[..n], verdict) + if verdict(rs[n]).None? then [] else [Answered(rs[n].id, verdict(rs[n]).value)]
  {
    assert rs[..n + 1][..n] == rs[..n];
  }

  lemma {:induction false} AnswersAre(rs: seq<Request>, verdict: Request -> Option<Outcome>)
    ensures forall r :: r in Kept(rs, verdict) <==> r in rs && verdict(r).None?
    ensures forall h :: h in Said(rs, verdict) ==> h.Answered?
    ensures forall r :: r in rs && verdict(r).Some? ==> Answered(r.id, verdict(r).value) in Said(rs, verdict)
  {
    if rs != [] {
      AnswersAre(rs[..|rs| - 1], verdict);
      assert rs == rs[..|rs| - 1] + [rs[|rs| - 1]];
    }
  }

  lemma AnsweredAll(t: Trace, rs: seq<Request>, verdict: Request -> Option<Outcome>)
    ensures AddsAnswers(t, t + Said(rs, verdict))
    ensures forall r :: r in Kept(rs, verdict) <==> r in rs && verdict(r).None?
    ensures forall r :: r in rs && verdict(r).Some? ==> Answered(r.id, verdict(r).value) in t + Said(rs, verdict)
    ensures (forall r :: r in rs ==> verdict(r).Some?) ==> Kept(rs, verdict) == []
  {
    AnswersAre(rs, verdict);
    var said := Said(rs, verdict);
    forall k | |t| <= k < |t + said| ensures (t + said)[k].Answered? {
      assert said[k - |t|] in said;
    }
    if |Kept(rs, verdict)| > 0 {
      assert Kept(rs, verdict)[0] in Kept(rs, verdict);
    }
  }

  lemma NoneLostBy(t: Trace, rs: seq<Request>, verdict: Request -> Option<Outcome>)
    ensures NoneLost(rs, Kept(rs, verdict), t + Said(rs, verdict))
  {
    AnsweredAll(t, rs, verdict);
    forall r | r in rs ensures IsListed(Kept(rs, verdict), r.id) || !Unanswered(t + Said(rs, verdict), r.id) {
      if verdict(r).None? {
        assert r in Kept(rs, verdict);
      } else {
        assert Answered(r.id, verdict(r).value) in t + Said(rs, verdict);
      }
    }
  }

  lemma WithoutOne(t: Trace, kept: seq<Request>, rs: seq<Request>, i: nat)
    requires i < |rs| && AllWait(t, kept + rs[i..])
    ensures AllWait(t, kept + rs[i + 1..]) && Waits(t, rs[i])
    ensures forall r :: r in kept + rs[i + 1..] ==> r.id != rs[i].id
    ensures kept + [rs[i]] + rs[i + 1..] == kept + rs[i..]
  {
    var whole, less := kept + rs[i..], kept + rs[i + 1..];
    assert whole[|kept|] == rs[i];
    assert forall k :: 0 <= k < |less| ==> less[k] == whole[if k < |kept| then k else k + 1];
  }

  lemma WaitingWasQueued(t: Trace, r: Request)
    requires Waits(t, r)
    ensures !NeverQueued(t, r.id)
  {
    var i: nat :| WaitsSince(t, i, r);
    assert t[i].Queued? && t[i].id == r.id;
  }
}

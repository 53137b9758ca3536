/**
 `reindex_search`: rebuilding the search index graph by graph while writers go
 on. A write stamps its key with a fresh token and queues it; a scan may retire
 only the tokens it is sure to have seen, and only once the index is committed.
 */
module Reindex {
  import opened Wrappers

  const BATCH_GRAPHS: nat := 64

  /** A subject of a graph, or the graph's own delete or reindex entry. */
  datatype Key = Key(graph: nat, item: nat)

  datatype Tokens = Tokens(oldest: nat, latest: nat)

  type Queue = map<Key, Tokens>

  /** `settle_fts_entry`: tokens up to `upto` are retired, later ones stay. */
  function Settled(queue: Queue, key: Key, upto: nat): Queue {
    if key !in queue then queue
    else if queue[key].latest <= upto then queue - {key}
    else queue[key := Tokens(upto + 1, queue[key].latest)]
  }

  predicate Owes(queue: Queue, key: Key, token: nat) {
    key in queue && queue[key].oldest <= token <= queue[key].latest
  }

  /** What clearing a graph leaves of the queue. */
  function Cleared(queue: Queue, graph: nat, upto: nat): Queue {
    map key | key in queue && !(key.graph == graph && queue[key].latest <= upto) ::
      if key.graph == graph then Tokens(upto + 1, queue[key].latest) else queue[key]
  }

  /** Clearing retires the graph's tokens up to the cutoff and nothing else. */
  lemma ClearRetires(queue: Queue, graph: nat, upto: nat, key: Key, token: nat)
    requires Owes(queue, key, token)
    ensures Owes(Cleared(queue, graph, upto), key, token) <==> !(key.graph == graph && token <= upto)
  {}

  /** `clear_graph_queue`, entry by entry. */
  method ClearGraphQueue(queue: Queue, graph: nat, upto: nat) returns (r: Queue)
    ensures r == Cleared(queue, graph, upto)
  {
    r := queue;
    var todo := set key | key in queue && key.graph == graph;
    while todo != {}
      invariant forall key :: key in todo ==> key in queue && key.graph == graph
      invariant forall key: Key :: key in todo || key.graph != graph ==> (key in r <==> key in queue) && (key in r ==> r[key] == queue[key])
      invariant forall key :: key in queue && key.graph == graph && key !in todo ==>
                                if queue[key].latest <= upto then key !in r else key in r && r[key] == Tokens(upto + 1, queue[key].latest)
      invariant r.Keys <= queue.Keys
    {
      var key :| key in todo;
      r := Settled(r, key, upto);
      todo := todo - {key};
    }
  }

  // ----- Writers, the reindexer, the queue worker and crashes -----

  /**
   `issued` holds every write's key and token. `committed` tells, for each key, the
   last token that the active generation of the index has seen of it, `covered`
   the target each graph's active generation was built for, and `stages` the
   generations under construction. `scan` is the graph being reindexed, `scanned`
   waits for the batch's commit and `clearing` for its queue entries to be retired
   once more. A crash loses the last three and what unfinished stages have read.
   */
  datatype State = State(
    token: nat,
    issued: set<(Key, nat)>,
    queue: Queue,
    committed: map<Key, nat>,
    covered: map<nat, nat>,
    stages: map<nat, Job>,
    scan: Option<Scan>,
    scanned: seq<Scanned>,
    clearing: seq<Scanned>)

  /** A new generation: the target it is built for, the token of the snapshot it reads, and the keys read. */
  datatype Job = Job(target: nat, source: Option<nat>, read: set<Key>, complete: bool)

  /** `upto` is the cutoff taken before the scan, `target` the one the scan asks its generation for. */
  datatype Scan = Scan(graph: nat, upto: nat, target: Option<nat>)

  datatype Scanned = Scanned(graph: nat, upto: nat)

  datatype Step =
    | Write(key: Key)
    | Begin(graph: nat)
    | Pin // the scan asks for everything issued so far
    | Stage(graph: nat, target: nat) // by the scan or by the queue worker; a stage already there goes on with its own target
    | Snapshot(graph: nat)
    | Read(key: Key)
    | Finish(graph: nat)
    | Switch(graph: nat) // the new generation becomes the active one
    | ClearOwn // the scan retires what the active generation covers
    | EndScan
    | Commit
    | Clear
    | WorkerIndexes(key: Key) // the queue worker indexes a key and commits
    | WorkerSettles(key: Key, upto: nat) // and acknowledges what it committed
    | WorkerAcks(graph: nat) // or what a generation covers
    | Crash

  function Seen(index: map<Key, nat>, key: Key): nat {
    if key in index then index[key] else 0
  }

  /** The index has seen everything issued for the key up to a token. */
  ghost predicate SeenUpTo(s: State, key: Key, upto: nat) {
    forall token :: (key, token) in s.issued && token <= upto ==> token <= Seen(s.committed, key)
  }

  predicate Reading(s: State, graph: nat) {
    graph in s.stages && s.stages[graph].source.Some? && !s.stages[graph].complete
  }

  /** Every key of the graph that was written by the snapshot has been read. */
  ghost predicate ReadAll(s: State, graph: nat, job: Job) {
    job.source.Some?
    && forall key, token :: (key, token) in s.issued && key.graph == graph && token <= job.source.value ==> key in job.read
  }

  predicate Covers(s: State, graph: nat, target: nat) {
    graph in s.covered && target <= s.covered[graph]
  }

  ghost predicate Enabled(s: State, step: Step) {
    match step
    case Write(_) => true
    case Begin(_) => s.scan.None? && s.clearing == [] && |s.scanned| < BATCH_GRAPHS
    case Pin => s.scan.Some? && s.scan.value.target.None?
    case Stage(graph, target) => graph !in s.stages && target <= s.token
    case Snapshot(graph) => graph in s.stages && s.stages[graph].source.None?
    case Read(key) => Reading(s, key.graph)
    case Finish(graph) => Reading(s, graph) && ReadAll(s, graph, s.stages[graph])
    case Switch(graph) => graph in s.stages && s.stages[graph].complete && s.stages[graph].source.Some?
    case ClearOwn => s.scan.Some? && s.scan.value.target.Some? && s.scan.value.graph in s.covered
    case EndScan => s.scan.Some? && s.scan.value.target.Some? && Covers(s, s.scan.value.graph, s.scan.value.target.value)
    case Commit => s.scan.None? && s.clearing == [] && s.scanned != []
    case Clear => s.clearing != []
    case WorkerIndexes(key) => key.graph !in s.stages
    case WorkerSettles(key, upto) => SeenUpTo(s, key, upto)
    case WorkerAcks(graph) => graph in s.covered
    case Crash => true
  }

  function Queued(queue: Queue, key: Key, token: nat): Queue {
    queue[key := Tokens(if key in queue then queue[key].oldest else token, token)]
  }

  /** The index once the graph's new generation is active: the keys read, as of the snapshot, and the other graphs' keys. */
  function Switched(index: map<Key, nat>, graph: nat, job: Job): map<Key, nat>
    requires job.source.Some?
  {
    map key | key in index.Keys + job.read && (key.graph != graph || key in job.read) ::
      if key.graph == graph then job.source.value else Seen(index, key)
  }

  /** `acknowledge_reindexed`: only whole entries go. */
  function Acknowledged(queue: Queue, graph: nat, upto: nat): Queue {
    map key | key in queue && !(key.graph == graph && queue[key].latest <= upto) :: queue[key]
  }

  /** What is left is exactly the graph's entries with later tokens, untouched, and the other graphs' entries. */
  lemma AcknowledgeRetires(queue: Queue, graph: nat, upto: nat, key: Key, token: nat)
    requires Owes(queue, key, token)
    ensures Owes(Acknowledged(queue, graph, upto), key, token) <==> key.graph != graph || queue[key].latest > upto
  {}

  function Least(a: nat, b: nat): nat {
    if a < b then a else b
  }

  function Next(s: State, step: Step): State
    requires Enabled(s, step)
  {
    match step
    case Write(key) =>
      s.(token := s.token + 1, issued := s.issued + {(key, s.token + 1)}, queue := Queued(s.queue, key, s.token + 1))
    case Begin(graph) => s.(scan := Some(Scan(graph, s.token, None)))
    case Pin => s.(scan := Some(s.scan.value.(target := Some(s.token))))
    case Stage(graph, target) => s.(stages := s.stages[graph := Job(target, None, {}, false)])
    case Snapshot(graph) => s.(stages := s.stages[graph := s.stages[graph].(source := Some(s.token))])
    case Read(key) => s.(stages := s.stages[key.graph := s.stages[key.graph].(read := s.stages[key.graph].read + {key})])
    case Finish(graph) => s.(stages := s.stages[graph := s.stages[graph].(complete := true)])
    case Switch(graph) =>
      s.(committed := Switched(s.committed, graph, s.stages[graph]),
         covered := s.covered[graph := s.stages[graph].target], stages := s.stages - {graph})
    case ClearOwn =>
      s.(queue := Cleared(s.queue, s.scan.value.graph, Least(s.covered[s.scan.value.graph], s.scan.value.target.value)))
    case EndScan => s.(scan := None, scanned := s.scanned + [Scanned(s.scan.value.graph, s.scan.value.upto)])
    case Commit => s.(clearing := s.scanned, scanned := [])
    case Clear => s.(queue := Cleared(s.queue, s.clearing[0].graph, s.clearing[0].upto), clearing := s.clearing[1..])
    case WorkerIndexes(key) => s.(committed := s.committed[key := s.token])
    case WorkerSettles(key, upto) => s.(queue := Settled(s.queue, key, upto))
    case WorkerAcks(graph) => s.(queue := Acknowledged(s.queue, graph, s.covered[graph]))
    case Crash =>
      s.(scan := None, scanned := [], clearing := [],
         stages := map g | g in s.stages :: if s.stages[g].complete then s.stages[g] else Job(s.stages[g].target, None, {}, false))
  }

  ghost predicate Run(from: State, steps: seq<Step>, to: State)
    decreases |steps|
  {
    if steps == [] then from == to
    else Enabled(from, steps[0]) && Run(Next(from, steps[0]), steps[1..], to)
  }

  const START := State(0, {}, map[], map[], map[], map[], None, [], [])

  // ----- The invariant -----

  /** The committed index has seen the token, or the queue still owes it. */
  ghost predicate DebtKept(s: State) {
    forall key, token :: (key, token) in s.issued ==> token <= Seen(s.committed, key) || Owes(s.queue, key, token)
  }

  ghost predicate GraphSeen(s: State, graph: nat, upto: nat) {
    && upto <= s.token
    && forall key, token :: (key, token) in s.issued && key.graph == graph && token <= upto ==> token <= Seen(s.committed, key)
  }

  ghost predicate AllSeen(s: State, done: seq<Scanned>) {
    forall i :: 0 <= i < |done| ==> GraphSeen(s, done[i].graph, done[i].upto)
  }

  ghost predicate CoveredSeen(s: State) {
    forall g :: g in s.covered ==> GraphSeen(s, g, s.covered[g])
  }

  ghost predicate TokensBounded(queue: Queue, token: nat) {
    forall key :: key in queue ==> queue[key].oldest <= queue[key].latest <= token
  }

  ghost predicate Bounded(s: State) {
    && TokensBounded(s.queue, s.token)
    && (forall key, token :: (key, token) in s.issued ==> token <= s.token)
    && (forall key :: Seen(s.committed, key) <= s.token)
    && (s.scan.Some? ==> s.scan.value.upto <= s.token)
    && (s.scan.Some? && s.scan.value.target.Some? ==> s.scan.value.upto <= s.scan.value.target.value)
  }

  /** While a stage is there the active generation has seen nothing newer than the stage's snapshot. */
  ghost predicate JobSound(s: State, graph: nat, job: Job) {
    && job.target <= s.token
    && (forall key :: key in job.read ==> key.graph == graph)
    && (job.source.Some? ==>
          job.target <= job.source.value <= s.token && forall key: Key :: key.graph == graph ==> Seen(s.committed, key) <= job.source.value)
    && (job.complete ==> ReadAll(s, graph, job))
  }

  ghost predicate JobsSound(s: State) {
    forall g :: g in s.stages ==> JobSound(s, g, s.stages[g])
  }

  ghost predicate Inv(s: State) {
    DebtKept(s) && Bounded(s) && JobsSound(s) && CoveredSeen(s) && AllSeen(s, s.scanned) && AllSeen(s, s.clearing)
  }

  /** No new token comes at or below an old one, and the index only moves on. */
  ghost predicate MovesOn(s: State, next: State) {
    && s.token <= next.token
    && (forall key, token :: (key, token) in next.issued ==> (key, token) in s.issued || token > s.token)
    && (forall key :: Seen(s.committed, key) <= Seen(next.committed, key))
  }

  /** Then what was seen stays seen. */
  lemma SeenStays(s: State, next: State)
    requires CoveredSeen(s) && AllSeen(s, s.scanned) && AllSeen(s, s.clearing) && MovesOn(s, next)
    ensures AllSeen(next, s.scanned) && AllSeen(next, s.clearing)
    ensures next.covered == s.covered ==> CoveredSeen(next)
  {}

  /** A stage stays sound unless the index moves past its snapshot. */
  lemma JobStays(s: State, next: State, graph: nat, job: Job)
    requires JobSound(s, graph, job) && MovesOn(s, next)
    requires forall key: Key :: key.graph == graph ==> Seen(next.committed, key) == Seen(s.committed, key)
    ensures JobSound(next, graph, job)
  {}

  lemma JobsStay(s: State, next: State)
    requires JobsSound(s) && MovesOn(s, next) && next.stages == s.stages
    requires forall key: Key :: key.graph in s.stages ==> Seen(next.committed, key) == Seen(s.committed, key)
    ensures JobsSound(next)
  {
    forall g | g in s.stages ensures JobSound(next, g, s.stages[g]) {
      JobStays(s, next, g, s.stages[g]);
    }
  }

  lemma WriteKeeps(s: State, key: Key)
    requires Inv(s)
    ensures Inv(Next(s, Write(key)))
  {
    var next := Next(s, Write(key));
    forall k, token | (k, token) in next.issued ensures token <= Seen(next.committed, k) || Owes(next.queue, k, token) {
      assert (k, token) in s.issued || (k == key && token == s.token + 1);
    }
    SeenStays(s, next);
    JobsStay(s, next);
  }

  /** A change of one stage. */
  lemma StageKeeps(s: State, graph: nat, job: Job)
    requires Inv(s) && JobSound(s, graph, job)
    ensures Inv(s.(stages := s.stages[graph := job]))
  {
    var next := s.(stages := s.stages[graph := job]);
    SeenStays(s, next);
    forall g | g in next.stages ensures JobSound(next, g, next.stages[g]) {
      JobStays(s, next, g, next.stages[g]);
    }
  }

  /** A generation read from a snapshot is never behind the one it replaces. */
  lemma SwitchMovesOn(s: State, graph: nat)
    requires Inv(s) && Enabled(s, Switch(graph))
    ensures
      var next := Next(s, Switch(graph));
      && GraphSeen(next, graph, s.stages[graph].source.value)
      && forall key, token :: (key, token) in s.issued && token <= Seen(s.committed, key) ==> token <= Seen(next.committed, key)
  {
    var next, job := Next(s, Switch(graph)), s.stages[graph];
    assert JobSound(s, graph, job);
    forall key, token | (key, token) in s.issued && token <= Seen(s.committed, key) ensures token <= Seen(next.committed, key) {
      assert key.graph == graph ==> token <= job.source.value;
    }
  }

  lemma SwitchKeeps(s: State, graph: nat)
    requires Inv(s) && Enabled(s, Switch(graph))
    ensures Inv(Next(s, Switch(graph)))
  {
    var next, job := Next(s, Switch(graph)), s.stages[graph];
    SwitchMovesOn(s, graph);
    assert JobSound(s, graph, job);
    assert Bounded(next);
    forall g | g in next.stages ensures JobSound(next, g, next.stages[g]) {
      assert JobSound(s, g, s.stages[g]) && g != graph;
    }
    forall g | g in next.covered ensures GraphSeen(next, g, next.covered[g]) {
      if g != graph {
        assert GraphSeen(s, g, s.covered[g]);
      }
    }
    assert AllSeen(next, s.scanned) && AllSeen(next, s.clearing);
  }

  /** Queue entries go only for tokens the index has seen. */
  ghost predicate RetiresSeen(s: State, queue: Queue) {
    forall key, token :: (key, token) in s.issued && Owes(s.queue, key, token) && !Owes(queue, key, token) ==> token <= Seen(s.committed, key)
  }

  lemma RetireKeeps(s: State, queue: Queue)
    requires Inv(s) && RetiresSeen(s, queue) && TokensBounded(queue, s.token)
    ensures Inv(s.(queue := queue))
  {
    var next := s.(queue := queue);
    SeenStays(s, next);
    JobsStay(s, next);
  }

  lemma ClearRetiresSeen(s: State, graph: nat, upto: nat)
    requires GraphSeen(s, graph, upto)
    ensures RetiresSeen(s, Cleared(s.queue, graph, upto))
  {
    forall key, token | (key, token) in s.issued && Owes(s.queue, key, token) && !Owes(Cleared(s.queue, graph, upto), key, token)
      ensures token <= Seen(s.committed, key)
    {
      ClearRetires(s.queue, graph, upto, key, token);
    }
  }

  lemma ClearOwnKeeps(s: State)
    requires Inv(s) && Enabled(s, ClearOwn)
    ensures Inv(Next(s, ClearOwn))
  {
    var graph, upto := s.scan.value.graph, Least(s.covered[s.scan.value.graph], s.scan.value.target.value);
    assert GraphSeen(s, graph, s.covered[graph]);
    assert GraphSeen(s, graph, upto);
    ClearRetiresSeen(s, graph, upto);
    RetireKeeps(s, Cleared(s.queue, graph, upto));
  }

  lemma EndScanKeeps(s: State)
    requires Inv(s) && Enabled(s, EndScan)
    ensures Inv(Next(s, EndScan))
  {
    var next, scan := Next(s, EndScan), s.scan.value;
    SeenStays(s, next);
    JobsStay(s, next);
    assert GraphSeen(s, scan.graph, s.covered[scan.graph]);
    assert GraphSeen(next, scan.graph, scan.upto);
  }

  lemma ClearKeeps(s: State)
    requires Inv(s) && Enabled(s, Clear)
    ensures Inv(Next(s, Clear))
  {
    var rest := s.clearing[1..];
    assert forall i :: 0 <= i < |rest| ==> rest[i] == s.clearing[i + 1];
    var less := s.(clearing := rest);
    SeenStays(s, less);
    JobsStay(s, less);
    assert GraphSeen(s, s.clearing[0].graph, s.clearing[0].upto);
    assert GraphSeen(less, s.clearing[0].graph, s.clearing[0].upto);
    ClearRetiresSeen(less, s.clearing[0].graph, s.clearing[0].upto);
    RetireKeeps(less, Cleared(s.queue, s.clearing[0].graph, s.clearing[0].upto));
  }

  lemma WorkerKeeps(s: State, step: Step)
    requires Inv(s) && Enabled(s, step) && (step.WorkerIndexes? || step.WorkerSettles? || step.WorkerAcks?)
    ensures Inv(Next(s, step))
  {
    match step {
      case WorkerIndexes(key) =>
        SeenStays(s, Next(s, step));
        JobsStay(s, Next(s, step));
      case WorkerSettles(key, upto) =>
        RetireKeeps(s, Settled(s.queue, key, upto));
      case WorkerAcks(graph) =>
        assert GraphSeen(s, graph, s.covered[graph]);
        RetireKeeps(s, Acknowledged(s.queue, graph, s.covered[graph]));
    }
  }

  lemma CrashKeeps(s: State)
    requires Inv(s)
    ensures Inv(Next(s, Crash))
  {
    var next := Next(s, Crash);
    SeenStays(s, next);
    forall g | g in next.stages ensures JobSound(next, g, next.stages[g]) {
      assert JobSound(s, g, s.stages[g]);
    }
  }

  lemma ScanKeeps(s: State, step: Step)
    requires Inv(s) && Enabled(s, step) && (step.Begin? || step.Pin? || step.Commit?)
    ensures Inv(Next(s, step))
  {
    SeenStays(s, Next(s, step));
    JobsStay(s, Next(s, step));
  }

  lemma SnapshotKeeps(s: State, graph: nat)
    requires Inv(s) && Enabled(s, Snapshot(graph))
    ensures Inv(Next(s, Snapshot(graph)))
  {
    assert JobSound(s, graph, s.stages[graph]);
    StageKeeps(s, graph, s.stages[graph].(source := Some(s.token)));
  }

  lemma ReadKeeps(s: State, key: Key)
    requires Inv(s) && Enabled(s, Read(key))
    ensures Inv(Next(s, Read(key)))
  {
    assert JobSound(s, key.graph, s.stages[key.graph]);
    StageKeeps(s, key.graph, s.stages[key.graph].(read := s.stages[key.graph].read + {key}));
  }

  lemma FinishKeeps(s: State, graph: nat)
    requires Inv(s) && Enabled(s, Finish(graph))
    ensures Inv(Next(s, Finish(graph)))
  {
    assert JobSound(s, graph, s.stages[graph]);
    StageKeeps(s, graph, s.stages[graph].(complete := true));
  }

  lemma StepKeeps(s: State, step: Step)
    requires Inv(s) && Enabled(s, step)
    ensures Inv(Next(s, step))
  {
    match step {
      case Write(key) => WriteKeeps(s, key);
      case Begin(_) => ScanKeeps(s, step);
      case Pin => ScanKeeps(s, step);
      case Stage(graph, target) => StageKeeps(s, graph, Job(target, None, {}, false));
      case Snapshot(graph) => SnapshotKeeps(s, graph);
      case Read(key) => ReadKeeps(s, key);
      case Finish(graph) => FinishKeeps(s, graph);
      case Switch(graph) => SwitchKeeps(s, graph);
      case ClearOwn => ClearOwnKeeps(s);
      case EndScan => EndScanKeeps(s);
      case Commit => ScanKeeps(s, step);
      case Clear => ClearKeeps(s);
      case Crash => CrashKeeps(s);
      case _ => WorkerKeeps(s, step);
    }
  }

  lemma {:induction false} RunKeeps(from: State, steps: seq<Step>, to: State)
    requires Inv(from) && Run(from, steps, to)
    ensures Inv(to)
    decreases |steps|
  {
    if steps != [] {
      StepKeeps(from, steps[0]);
      RunKeeps(Next(from, steps[0]), steps[1..], to);
    }
  }

  /**
   Wherever writers interleave and the process dies, every issued token is in the
   committed index or still queued, and a generation has seen what it is said to cover.
   */
  lemma ReindexKeepsDebt(steps: seq<Step>, s: State)
    requires Run(START, steps, s)
    ensures DebtKept(s) && CoveredSeen(s)
  {
    RunKeeps(START, steps, s);
  }
}

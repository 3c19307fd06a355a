/**
 HubProxy as an interleaving of its actors over the one events table. A step is one SQL
 statement, one HTTP exchange with the target, or one channel operation; everything between
 two of them is a point where any other actor may run.

 Whatever the environment decides (which rows a query returns first, how the target answers,
 whether a statement fails, clocks and uuids) is part of the step. A step whose actor is not
 at that point is skipped, so every sequence of steps is a run.
 */
module Protocol {
  import opened Sequences
  import opened Events

  /** A goroutine started by StartForwarder. */
  datatype Worker =
    | Idle
    | Woken                                     // took a token, ListEvents still to come
    | Busy(todo: seq<Event>)                    // events of its snapshot still to forward
    | Unmarked(event: Event, todo: seq<Event>)  // target accepted event, MarkForwarded still to come
  {
    /** The events of the snapshot this worker has still to finish. */
    function Snapshot(): seq<Event> {
      match this
      case Busy(todo) => todo
      case Unmarked(event, todo) => [event] + todo
      case _ => []
    }

    predicate Holds(id: string) { exists e :: e in Snapshot() && e.id == id }

    /** The id is among the events this worker has not posted yet. */
    predicate Queues(id: string) { (Busy? || Unmarked?) && exists e :: e in todo && e.id == id }

    predicate Owes(id: string) { Unmarked? && event.id == id }
  }

  /** The metrics goroutine. */
  datatype Gatherer =
    | Waiting
    | Asked                                               // took a token, GetStats still to come
    | Setting(stats: map<string, nat>, todo: set<string>) // gauges still to set

  /** How forwardEvent's attempt ends: no request made, no answer, status >= 400, status < 400. */
  datatype Outcome = NotSent | NoAnswer | Rejected | Accepted

  /** A request handed to the HTTP client. */
  datatype Sent = Sent(worker: nat, event: Event, outcome: Outcome)

  datatype State = State(
    table: Table,
    replays: map<nat, seq<Event>>,  // replay requests in flight: rows read, not yet written back
    workers: seq<Worker>,
    forwardJob: bool,               // the forwarder's one-slot queue
    gatherer: Gatherer,
    gaugeJob: bool,                 // the collector's one-slot queue
    unannounced: nat,               // handlers between StoreEvent and EnqueueGatherMetrics
    gauges: map<string, nat>,
    log: seq<Sent>)

  datatype Step =
    | Receive(event: Event)         // a webhook handler's INSERT
    | ReceiveFailed                 // StoreEvent failed; the handler carries on
    | Announce                      // that handler's EnqueueGatherMetrics
    | Tick                          // EnqueueGatherMetrics by the ticker
    | TakeGaugeJob
    | QueryStats
    | QueryStatsFailed
    | SetGauge(typ: string)
    | GatherDone
    | ReplayRead(request: nat, rows: seq<Event>)              // GetEvent, or the SELECT of ListEvents
    | ReplayWrite(request: nat, uuid: string, now: Time)      // UpdateEvent of the next row read
    | ReplayEnd(request: nat)                                 // all written, or an error on the way
    | EnqueueForward
    | TakeForwardJob(worker: nat)
    | List(worker: nat, rows: seq<Event>)
    | ListFailed(worker: nat)
    | Post(worker: nat, outcome: Outcome)
    | MarkApplied(worker: nat, now: Time)
    | MarkFailed(worker: nat)
    | PassDone(worker: nat)
    | Restart                                                 // the process dies and starts again

  /** A first start: an empty table, and both queues filled by StartForwarder and StartMetricsCollection. */
  function Init(width: nat): State {
    State(map[], map[], seq(width, _ => Idle), true, Waiting, true, 0, map[], [])
  }

  /** What a handler stores: not forwarded, never replayed, no error. */
  predicate IsNew(e: Event) {
    e.Pending() && e.error == "" && e.replayedFrom == "" && e.replayedTime == ZERO_TIME
  }

  predicate Enabled(s: State, x: Step) {
    match x
    case Receive(e) => IsNew(e)
    case ReceiveFailed => true
    case Announce => s.unannounced > 0
    case Tick => true
    case TakeGaugeJob => s.gaugeJob && s.gatherer.Waiting?
    case QueryStats => s.gatherer.Asked?
    case QueryStatsFailed => s.gatherer.Asked?
    case SetGauge(typ) => s.gatherer.Setting? && typ in s.gatherer.todo && typ in s.gatherer.stats
    case GatherDone => s.gatherer.Setting? && s.gatherer.todo == {}
    case ReplayRead(r, rows) => r !in s.replays && IsRead(s.table, rows)
    case ReplayWrite(r, _, _) => r in s.replays && s.replays[r] != []
    case ReplayEnd(r) => r in s.replays
    case EnqueueForward => true
    case TakeForwardJob(w) => w < |s.workers| && s.workers[w].Idle? && s.forwardJob
    case List(w, rows) => w < |s.workers| && s.workers[w].Woken? && IsPendingList(s.table, rows)
    case ListFailed(w) => w < |s.workers| && s.workers[w].Woken?
    case Post(w, _) => w < |s.workers| && s.workers[w].Busy? && s.workers[w].todo != []
    case MarkApplied(w, _) => w < |s.workers| && s.workers[w].Unmarked?
    case MarkFailed(w) => w < |s.workers| && s.workers[w].Unmarked?
    case PassDone(w) => w < |s.workers| && s.workers[w].Busy? && s.workers[w].todo == []
    case Restart => true
  }

  // ---- what each part of the state is after a step; a step not named leaves the part alone ----

  function TableAfter(s: State, x: Step): Table
    requires Enabled(s, x)
  {
    match x
    case Receive(e) => Insert(s.table, e)
    case ReplayWrite(r, uuid, now) => Update(s.table, Replayed(s.replays[r][0], uuid, now))
    case MarkApplied(w, now) => Mark(s.table, s.workers[w].event.id, now)
    case _ => s.table
  }

  function ReplaysAfter(s: State, x: Step): map<nat, seq<Event>>
    requires Enabled(s, x)
  {
    match x
    case ReplayRead(r, rows) => s.replays[r := rows]
    case ReplayWrite(r, _, _) => s.replays[r := s.replays[r][1..]]
    case ReplayEnd(r) => s.replays - {r}
    case Restart => map[]
    case _ => s.replays
  }

  /** The steps of one worker, and the restart, which is a step of every worker. */
  predicate Moves(x: Step, w: nat) {
    match x
    case TakeForwardJob(v) => v == w
    case List(v, _) => v == w
    case ListFailed(v) => v == w
    case Post(v, _) => v == w
    case MarkApplied(v, _) => v == w
    case MarkFailed(v) => v == w
    case PassDone(v) => v == w
    case Restart => true
    case _ => false
  }

  function WorkerAfter(s: State, x: Step, w: nat): Worker
    requires Enabled(s, x) && w < |s.workers|
  {
    if !Moves(x, w) then s.workers[w]
    else
      match x
      case TakeForwardJob(_) => Woken
      case List(_, rows) => if rows == [] then Idle else Busy(rows)
      case Post(_, outcome) =>
        var e, rest := s.workers[w].todo[0], s.workers[w].todo[1..];
        if outcome.Accepted? then Unmarked(e, rest) else Busy(rest)
      case MarkApplied(_, _) => Busy(s.workers[w].todo)
      case MarkFailed(_) => Busy(s.workers[w].todo)
      case _ => Idle
  }

  function WorkersAfter(s: State, x: Step): seq<Worker>
    requires Enabled(s, x)
  {
    seq(|s.workers|, w requires 0 <= w < |s.workers| => WorkerAfter(s, x, w))
  }

  /** A step of one particular worker. */
  predicate IsWorkerStep(x: Step) {
    x.TakeForwardJob? || x.List? || x.ListFailed? || x.Post? || x.MarkApplied? || x.MarkFailed? || x.PassDone?
  }

  /** Such a step leaves the other workers alone. */
  lemma OneWorkerMoves(s: State, x: Step)
    requires Enabled(s, x)
    ensures IsWorkerStep(x) ==>
              x.worker < |s.workers| && WorkersAfter(s, x) == s.workers[x.worker := WorkerAfter(s, x, x.worker)]
    ensures !IsWorkerStep(x) && !x.Restart? ==> WorkersAfter(s, x) == s.workers
    ensures x.Restart? ==> WorkersAfter(s, x) == seq(|s.workers|, _ => Idle)
  {
  }

  /** Every start of the process makes the call of EnqueueProcessEvents that ends StartForwarder. */
  function ForwardJobAfter(s: State, x: Step): bool {
    match x
    case EnqueueForward => true
    case TakeForwardJob(_) => false
    case Restart => true
    case _ => s.forwardJob
  }

  function GathererAfter(s: State, x: Step): Gatherer
    requires Enabled(s, x)
  {
    match x
    case TakeGaugeJob => Asked
    case QueryStats =>
      var stats := Stats(s.table, ZERO_TIME);
      Setting(stats, stats.Keys)
    case QueryStatsFailed => Waiting
    case SetGauge(typ) => Setting(s.gatherer.stats, s.gatherer.todo - {typ})
    case GatherDone => Waiting
    case Restart => Waiting
    case _ => s.gatherer
  }

  /** A pass that forwarded something ends by asking for metrics; so does every start of the process. */
  function GaugeJobAfter(s: State, x: Step): bool {
    match x
    case Announce => true
    case Tick => true
    case PassDone(_) => true
    case Restart => true
    case TakeGaugeJob => false
    case _ => s.gaugeJob
  }

  function UnannouncedAfter(s: State, x: Step): nat
    requires Enabled(s, x)
  {
    match x
    case Receive(_) => s.unannounced + 1
    case ReceiveFailed => s.unannounced + 1
    case Announce => s.unannounced - 1
    case Restart => 0
    case _ => s.unannounced
  }

  function GaugesAfter(s: State, x: Step): map<string, nat>
    requires Enabled(s, x)
  {
    match x
    case SetGauge(typ) => s.gauges[typ := s.gatherer.stats[typ]]
    case Restart => map[]
    case _ => s.gauges
  }

  function LogAfter(s: State, x: Step): seq<Sent>
    requires Enabled(s, x)
  {
    match x
    case Post(w, outcome) => if outcome.NotSent? then s.log else s.log + [Sent(w, s.workers[w].todo[0], outcome)]
    case _ => s.log
  }

  function Do(s: State, x: Step): State
    requires Enabled(s, x)
  {
    State(TableAfter(s, x), ReplaysAfter(s, x), WorkersAfter(s, x), ForwardJobAfter(s, x),
          GathererAfter(s, x), GaugeJobAfter(s, x), UnannouncedAfter(s, x), GaugesAfter(s, x), LogAfter(s, x))
  }

  function Next(s: State, x: Step): State {
    if Enabled(s, x) then Do(s, x) else s
  }

  function Run(s: State, steps: seq<Step>): State {
    if steps == [] then s else Next(Run(s, steps[..|steps| - 1]), steps[|steps| - 1])
  }

  /** The state after a run from the empty table of a first start, with the given number of workers. */
  function After(width: nat, steps: seq<Step>): State {
    Run(Init(width), steps)
  }

  /** Step k of the run from s is taken, not skipped. */
  predicate Fires(s: State, steps: seq<Step>, k: nat) {
    k < |steps| && Enabled(Run(s, steps[..k]), steps[k])
  }

  lemma {:induction false} RunSplit(s: State, steps: seq<Step>, k: nat)
    requires k <= |steps|
    ensures Run(s, steps) == Run(Run(s, steps[..k]), steps[k..])
    decreases |steps|
  {
    if k < |steps| {
      var rest := steps[..|steps| - 1];
      RunSplit(s, rest, k);
      assert rest[..k] == steps[..k];
      assert steps[k..][..|steps| - k - 1] == rest[k..];
    } else {
      assert steps[..k] == steps;
    }
  }

  /** One step more, by way of a named state. */
  lemma RunTo(s: State, steps: seq<Step>, mid: State, x: Step, end: State)
    requires Run(s, steps) == mid && Next(mid, x) == end
    ensures Run(s, steps + [x]) == end
  {
    assert (steps + [x])[..|steps|] == steps;
  }

  lemma RunOne(s: State, x: Step)
    ensures Run(s, [x]) == Next(s, x)
  {
    assert [x][..0] == [];
    assert Run(s, [x]) == Next(Run(s, []), x);
  }

  lemma RunConcat(s: State, a: seq<Step>, b: seq<Step>)
    ensures Run(s, a + b) == Run(Run(s, a), b)
  {
    RunSplit(s, a + b, |a|);
    assert (a + b)[..|a|] == a && (a + b)[|a|..] == b;
  }

  // ---- the basic invariant ----

  /** The table still has the row this copy was read from, with the same fixed columns. */
  predicate Agrees(t: Table, e: Event) {
    e.id in t && t[e.id].Fixed() == e.Fixed()
  }

  /** Every row kept, with its fixed columns. */
  predicate Extends(t: Table, t': Table) {
    forall id :: id in t ==> id in t' && t'[id].Fixed() == t[id].Fixed()
  }

  predicate WorkerOk(t: Table, worker: Worker) {
    && Distinct(Ids(worker.Snapshot()))
    && forall e :: e in worker.Snapshot() ==> Agrees(t, e)
  }

  /** Every copy of a row that some actor holds, and every event ever sent, agrees with the table. */
  ghost predicate Inv(s: State) {
    && (forall r, e :: r in s.replays && e in s.replays[r] ==> Agrees(s.table, e))
    && (forall w :: 0 <= w < |s.workers| ==> WorkerOk(s.table, s.workers[w]))
    && (forall i :: 0 <= i < |s.log| ==> Agrees(s.table, s.log[i].event))
  }

  /** No single step drops a row or alters a fixed column, though replays write whole rows they read earlier. */
  lemma TableExtends(s: State, x: Step)
    requires Inv(s)
    ensures Extends(s.table, Next(s, x).table)
  {
    if Enabled(s, x) && x.ReplayWrite? {
      var e := s.replays[x.request][0];
      assert e in s.replays[x.request];
      assert Agrees(s.table, e);
    }
  }

  /** A step leaves a worker's snapshot alone, finishes its first event, drops it, or lists a new one. */
  lemma SnapshotMoves(s: State, x: Step, w: nat)
    requires Enabled(s, x) && w < |s.workers|
    ensures |Do(s, x).workers| == |s.workers|
    ensures var before, after := s.workers[w].Snapshot(), Do(s, x).workers[w].Snapshot();
            || after == before
            || after == []
            || (before != [] && after == before[1..])
            || (x.List? && x.worker == w && after == x.rows)
  {
    if x.Post? && x.worker == w {
      var todo := s.workers[w].todo;
      assert [todo[0]] + todo[1..] == todo;
    }
  }

  lemma SnapshotTailOk(t: Table, before: Worker, after: Worker)
    requires WorkerOk(t, before) && before.Snapshot() != [] && after.Snapshot() == before.Snapshot()[1..]
    ensures WorkerOk(t, after)
  {
    var ids, ids' := Ids(before.Snapshot()), Ids(after.Snapshot());
    assert forall i :: 0 <= i < |ids'| ==> ids'[i] == ids[i + 1];
  }

  lemma WorkerStep(s: State, x: Step, w: nat)
    requires Inv(s) && Enabled(s, x) && w < |s.workers|
    ensures |Do(s, x).workers| == |s.workers|
    ensures WorkerOk(s.table, Do(s, x).workers[w])
  {
    var before, after := s.workers[w], Do(s, x).workers[w];
    assert WorkerOk(s.table, before);
    SnapshotMoves(s, x, w);
    if before.Snapshot() != [] && after.Snapshot() == before.Snapshot()[1..] {
      SnapshotTailOk(s.table, before, after);
    }
  }

  lemma ReplayStep(s: State, x: Step, r: nat, e: Event)
    requires Inv(s) && Enabled(s, x)
    requires r in Do(s, x).replays && e in Do(s, x).replays[r]
    ensures Agrees(s.table, e)
  {
    if x.ReplayWrite? && x.request == r {
      assert e in s.replays[r];
    }
  }

  lemma LogStep(s: State, x: Step, i: nat)
    requires Inv(s) && Enabled(s, x) && i < |Do(s, x).log|
    ensures Agrees(s.table, Do(s, x).log[i].event)
  {
    if i >= |s.log| {
      assert WorkerOk(s.table, s.workers[x.worker]);
      assert s.workers[x.worker].todo[0] in s.workers[x.worker].Snapshot();
    }
  }

  lemma InvStep(s: State, x: Step)
    requires Inv(s)
    ensures Inv(Next(s, x))
  {
    if Enabled(s, x) {
      var s' := Do(s, x);
      assert Extends(s.table, s'.table) by { TableExtends(s, x); }
      forall w | 0 <= w < |s'.workers| ensures WorkerOk(s'.table, s'.workers[w]) {
        assert WorkerOk(s.table, s'.workers[w]) by {
          assert |s'.workers| == |s.workers|;
          WorkerStep(s, x, w);
        }
      }
      forall r, e | r in s'.replays && e in s'.replays[r] ensures Agrees(s'.table, e) {
        ReplayStep(s, x, r, e);
      }
      forall i | 0 <= i < |s'.log| ensures Agrees(s'.table, s'.log[i].event) {
        LogStep(s, x, i);
      }
    }
  }

  lemma {:induction false} InvRun(s: State, steps: seq<Step>)
    requires Inv(s)
    ensures Inv(Run(s, steps))
  {
    if steps == [] {
    } else {
      InvRun(s, steps[..|steps| - 1]);
      InvStep(Run(s, steps[..|steps| - 1]), steps[|steps| - 1]);
    }
  }

  lemma InvInit(width: nat)
    ensures Inv(Init(width))
  {
  }
}

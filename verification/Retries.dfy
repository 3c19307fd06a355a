/** When an event is tried again: what a refusal leaves behind, and what it takes to get a further attempt. */
module Retries {
  import opened Wrappers
  import opened Sequences
  import opened Events
  import opened Protocol
  import opened Redelivery
  import opened Deliveries
  import opened Wakeups
  import opened Refinement
  import opened Interference

  /** Some worker still has the id ahead of it in its snapshot. */
  predicate Queued(s: State, id: string) {
    exists w :: 0 <= w < |s.workers| && s.workers[w].Queues(id)
  }

  /** Somewhere in `more`, run from s, a worker attempts to forward the id, however the attempt ends. */
  ghost predicate Attempts(s: State, more: seq<Step>, id: string) {
    exists k :: 0 <= k < |more| && more[k].Post? && PostsNext(Run(s, more[..k]), more[k].worker, id)
  }

  /** A run in which nobody calls EnqueueProcessEvents and the process does not start again. */
  predicate Unprompted(steps: seq<Step>) { forall x :: x in steps ==> !Prompts(x) }

  lemma UnpromptedBefore(x: Step, more: seq<Step>)
    requires !Prompts(x) && Unprompted(more)
    ensures Unprompted([x] + more)
  {
  }

  // ---- without a wakeup, nothing ----

  /** No pass is on its way and none under way has the id ahead of it. */
  predicate Settled(s: State, id: string) { !Coming(s) && !Queued(s, id) }

  lemma NothingComes(s: State, x: Step)
    requires !Coming(s) && !Prompts(x)
    ensures !Coming(Next(s, x))
  {
    if Enabled(s, x) {
      forall w | 0 <= w < |s.workers| ensures !WorkerAfter(s, x, w).Woken? {
        assert !s.workers[w].Woken?;
      }
    }
  }

  lemma QueueShrinks(s: State, x: Step, w: nat, id: string)
    requires Enabled(s, x) && w < |s.workers| && !s.workers[w].Woken? && !s.workers[w].Queues(id)
    ensures !WorkerAfter(s, x, w).Queues(id)
  {
  }

  lemma SettledStep(s: State, x: Step, id: string)
    requires Settled(s, id) && !Prompts(x)
    ensures Settled(Next(s, x), id)
    ensures !(x.Post? && PostsNext(s, x.worker, id))
  {
    NothingComes(s, x);
    if Enabled(s, x) {
      forall w | 0 <= w < |s.workers| ensures !WorkerAfter(s, x, w).Queues(id) {
        assert !s.workers[w].Woken? && !s.workers[w].Queues(id);
        QueueShrinks(s, x, w, id);
      }
    }
    if x.Post? && x.worker < |s.workers| {
      assert !s.workers[x.worker].Queues(id);
    }
  }

  lemma {:induction false} SettledRun(s: State, more: seq<Step>, id: string)
    requires Settled(s, id) && Unprompted(more)
    ensures Settled(Run(s, more), id)
  {
    if more == [] {
    } else {
      SettledRun(s, more[..|more| - 1], id);
      SettledStep(Run(s, more[..|more| - 1]), more[|more| - 1], id);
    }
  }

  lemma SettledIsOver(s: State, more: seq<Step>, id: string)
    requires Settled(s, id) && Unprompted(more)
    ensures !Attempts(s, more, id)
  {
    forall k | 0 <= k < |more| ensures !(more[k].Post? && PostsNext(Run(s, more[..k]), more[k].worker, id)) {
      SettledRun(s, more[..k], id);
      SettledStep(Run(s, more[..k]), more[k], id);
    }
  }

  // ---- with one, a delivery can follow ----

  /** Without any further EnqueueProcessEvents a delivery of the id can still come about. */
  ghost predicate MayDeliver(s: State, id: string) {
    exists more :: Unprompted(more) && Delivers(s, more, id)
  }

  lemma RunBefore(s: State, x: Step, steps: seq<Step>)
    ensures Run(s, [x] + steps) == Run(Next(s, x), steps)
  {
    RunOne(s, x);
    RunConcat(s, [x], steps);
  }

  lemma DeliversBefore(s: State, x: Step, more: seq<Step>, id: string)
    requires Delivers(Next(s, x), more, id)
    ensures Delivers(s, [x] + more, id)
  {
    var s' := Next(s, x);
    var k, w :| 0 <= k < |more| && more[k] == Post(w, Accepted) && PostsNext(Run(s', more[..k]), w, id);
    PrefixBefore(s, x, more, k);
    DeliversAt(s, [x] + more, k + 1, w, id);
  }

  lemma PrefixBefore(s: State, x: Step, more: seq<Step>, k: nat)
    requires k <= |more|
    ensures Run(s, ([x] + more)[..k + 1]) == Run(Next(s, x), more[..k])
  {
    RunBefore(s, x, more[..k]);
    assert ([x] + more)[..k + 1] == [x] + more[..k];
  }

  lemma StepBefore(s: State, x: Step, id: string)
    requires !Prompts(x) && MayDeliver(Next(s, x), id)
    ensures MayDeliver(s, id)
  {
    var more :| Unprompted(more) && Delivers(Next(s, x), more, id);
    MayDeliverBefore(s, x, more, id);
  }

  lemma MayDeliverBefore(s: State, x: Step, more: seq<Step>, id: string)
    requires !Prompts(x) && Unprompted(more) && Delivers(Next(s, x), more, id)
    ensures MayDeliver(s, id)
  {
    DeliversBefore(s, x, more, id);
    UnpromptedBefore(x, more);
    MayDeliverBy(s, [x] + more, id);
  }

  lemma MayDeliverBy(s: State, more: seq<Step>, id: string)
    requires Unprompted(more) && Delivers(s, more, id)
    ensures MayDeliver(s, id)
  {
  }

  lemma NextDelivers(s: State, w: nat, id: string)
    requires PostsNext(s, w, id)
    ensures MayDeliver(s, id)
  {
    var more := [Post(w, Accepted)];
    assert more[..0] == [];
    DeliversAt(s, more, 0, w, id);
  }

  lemma RefusalKeeps(s: State, w: nat)
    requires w < |s.workers| && s.workers[w].Busy? && s.workers[w].todo != []
    ensures Next(s, Post(w, Rejected)).workers == s.workers[w := Busy(s.workers[w].todo[1..])]
    ensures Next(s, Post(w, Rejected)).table == s.table && Next(s, Post(w, Rejected)).forwardJob == s.forwardJob
  {
    OneWorkerMoves(s, Post(w, Rejected));
  }

  lemma {:induction false} BusyDelivers(s: State, w: nat, id: string)
    requires w < |s.workers| && s.workers[w].Busy? && s.workers[w].Queues(id)
    ensures MayDeliver(s, id)
    decreases |s.workers[w].todo|
  {
    var todo := s.workers[w].todo;
    if todo[0].id == id {
      NextDelivers(s, w, id);
    } else {
      var x := Post(w, Rejected);
      assert todo == [todo[0]] + todo[1..];
      RefusalKeeps(s, w);
      BusyDelivers(Next(s, x), w, id);
      StepBefore(s, x, id);
    }
  }

  lemma QueuedDelivers(s: State, id: string)
    requires Queued(s, id)
    ensures MayDeliver(s, id)
  {
    var w :| 0 <= w < |s.workers| && s.workers[w].Queues(id);
    if s.workers[w].Busy? {
      BusyDelivers(s, w, id);
    } else {
      assert Next(s, MarkFailed(w)).workers[w] == Busy(s.workers[w].todo);
      BusyDelivers(Next(s, MarkFailed(w)), w, id);
      StepBefore(s, MarkFailed(w), id);
    }
  }

  lemma ListQueues(s: State, w: nat, rows: seq<Event>, id: string)
    requires w < |s.workers| && s.workers[w].Woken? && IsPendingList(s.table, rows) && id in PendingIds(s.table)
    ensures Next(s, List(w, rows)).workers == s.workers[w := Busy(rows)]
    ensures Busy(rows).Queues(id)
  {
    assert id in ToSet(Ids(rows));
    IdsOf(rows);
    OneWorkerMoves(s, List(w, rows));
  }

  lemma PendingDelivers(s: State, w: nat, id: string)
    requires w < |s.workers| && s.workers[w].Woken? && id in PendingIds(s.table)
    ensures MayDeliver(s, id)
  {
    ScanExists(s.table);
    var scan :| IsScan(s.table, scan);
    PendingQuery(s.table, scan);
    var rows := Page(Filter(s.table, NON_FORWARDED, scan), 0, 0);
    var x := List(w, rows);
    ListQueues(s, w, rows, id);
    BusyDelivers(Next(s, x), w, id);
    StepBefore(s, x, id);
  }

  /** A number no request in flight bears. */
  lemma {:induction false} Unused(numbers: set<nat>) returns (r: nat)
    ensures forall n :: n in numbers ==> n < r
    decreases |numbers|
  {
    if numbers == {} {
      r := 0;
    } else {
      var n :| n in numbers;
      var rest := Unused(numbers - {n});
      r := Max(rest, n + 1);
      assert forall m :: m in numbers ==> m == n || m in numbers - {n};
    }
  }

  lemma ReadKeeps(s: State, w: nat, r: nat, id: string)
    requires w < |s.workers| && r !in s.replays && id in s.table
    ensures var s' := Next(s, ReplayRead(r, [s.table[id]]));
            s'.table == s.table && s'.workers == s.workers && r in s'.replays && s'.replays[r] == [s.table[id]]
  {
    assert IsRead(s.table, [s.table[id]]);
    OneWorkerMoves(s, ReplayRead(r, [s.table[id]]));
  }

  lemma WriteReopens(s: State, r: nat, id: string)
    requires id in s.table && r in s.replays && s.replays[r] == [s.table[id]]
    ensures var s' := Next(s, ReplayWrite(r, "", ZERO_TIME));
            s'.workers == s.workers && id in PendingIds(s'.table)
  {
    OneWorkerMoves(s, ReplayWrite(r, "", ZERO_TIME));
  }

  lemma ReadDelivers(s: State, w: nat, r: nat, id: string)
    requires w < |s.workers| && s.workers[w].Woken?
    requires id in s.table && r in s.replays && s.replays[r] == [s.table[id]]
    ensures MayDeliver(s, id)
  {
    var write := ReplayWrite(r, "", ZERO_TIME);
    WriteReopens(s, r, id);
    PendingDelivers(Next(s, write), w, id);
    StepBefore(s, write, id);
  }

  lemma ReplayDelivers(s: State, w: nat, r: nat, id: string)
    requires w < |s.workers| && s.workers[w].Woken? && id in s.table && r !in s.replays
    ensures MayDeliver(s, id)
  {
    var read := ReplayRead(r, [s.table[id]]);
    ReadKeeps(s, w, r, id);
    ReadDelivers(Next(s, read), w, r, id);
    StepBefore(s, read, id);
  }

  lemma WokenDelivers(s: State, w: nat, id: string)
    requires w < |s.workers| && s.workers[w].Woken? && id in s.table
    ensures MayDeliver(s, id)
  {
    if id in PendingIds(s.table) {
      PendingDelivers(s, w, id);
    } else {
      var r := Unused(s.replays.Keys);
      ReplayDelivers(s, w, r, id);
    }
  }

  lemma IdleDelivers(s: State, w: nat, id: string)
    requires w < |s.workers| && s.workers[w].Idle? && s.forwardJob && id in s.table
    ensures MayDeliver(s, id)
  {
    var x := TakeForwardJob(w);
    assert Next(s, x).workers[w] == Woken && Next(s, x).table == s.table;
    WokenDelivers(Next(s, x), w, id);
    StepBefore(s, x, id);
  }

  lemma {:induction false} DrainDelivers(s: State, w: nat, id: string)
    requires w < |s.workers| && s.workers[w].Busy? && s.forwardJob && id in s.table
    ensures MayDeliver(s, id)
    decreases |s.workers[w].todo|
  {
    var todo := s.workers[w].todo;
    if todo == [] {
      var x := PassDone(w);
      assert Next(s, x).workers[w] == Idle && Next(s, x).forwardJob && Next(s, x).table == s.table;
      IdleDelivers(Next(s, x), w, id);
      StepBefore(s, x, id);
    } else {
      var x := Post(w, Rejected);
      RefusalKeeps(s, w);
      DrainDelivers(Next(s, x), w, id);
      StepBefore(s, x, id);
    }
  }

  lemma UnmarkedDelivers(s: State, w: nat, id: string)
    requires w < |s.workers| && s.workers[w].Unmarked? && s.forwardJob && id in s.table
    ensures MayDeliver(s, id)
  {
    var x := MarkFailed(w);
    assert Next(s, x).workers[w].Busy? && Next(s, x).forwardJob && Next(s, x).table == s.table;
    DrainDelivers(Next(s, x), w, id);
    StepBefore(s, x, id);
  }

  lemma ComingDelivers(s: State, id: string)
    requires Coming(s) && |s.workers| > 0 && id in s.table
    ensures MayDeliver(s, id)
  {
    if w :| 0 <= w < |s.workers| && s.workers[w].Woken? {
      WokenDelivers(s, w, id);
    } else if s.workers[0].Idle? {
      IdleDelivers(s, 0, id);
    } else if s.workers[0].Busy? {
      DrainDelivers(s, 0, id);
    } else {
      UnmarkedDelivers(s, 0, id);
    }
  }

  /**
   When an event is tried again. From any reachable state, without a further call of
   EnqueueProcessEvents or a restart, an attempt to forward a stored event can still come if and only if a
   wakeup is on its way or a worker has the event ahead of it in its snapshot; and whenever an
   attempt can come, one that the target accepts can. Stores, replays, refusals and timers change
   nothing about that; a restart does, since every start makes the call.
   */
  lemma TriedAgain(width: nat, steps: seq<Step>, id: string)
    requires width > 0 && id in After(width, steps).table
    ensures var s := After(width, steps);
            && ((exists more :: Unprompted(more) && Attempts(s, more, id)) <==> Coming(s) || Queued(s, id))
            && (MayDeliver(s, id) <==> Coming(s) || Queued(s, id))
  {
    var s := After(width, steps);
    KeepsWidth(width, steps);
    if Coming(s) {
      ComingDelivers(s, id);
    } else if Queued(s, id) {
      QueuedDelivers(s, id);
    } else {
      forall more | Unprompted(more) ensures !Attempts(s, more, id) && !Delivers(s, more, id) {
        SettledIsOver(s, more, id);
        DeliveryIsAttempt(s, more, id);
      }
    }
    if MayDeliver(s, id) {
      var more :| Unprompted(more) && Delivers(s, more, id);
      DeliveryIsAttempt(s, more, id);
    }
  }

  lemma DeliveryIsAttempt(s: State, more: seq<Step>, id: string)
    ensures Delivers(s, more, id) ==> Attempts(s, more, id)
  {
  }

  lemma {:induction false} KeepsWidth(width: nat, steps: seq<Step>)
    ensures |After(width, steps).workers| == width
  {
    if steps == [] {
    } else {
      KeepsWidth(width, steps[..|steps| - 1]);
    }
  }

  /**
   A refused event is not retried by itself: after one refusal its row is pending, the pass is
   over, nothing is on its way, and only another start or call of EnqueueProcessEvents leads to a
   further attempt.
   */
  lemma RefusedStays(e: Event)
    requires IsNew(e)
    ensures var s := After(1, [Receive(e), TakeForwardJob(0), List(0, [e]), Post(0, Rejected), PassDone(0)]);
            && e.id in PendingIds(s.table)
            && !Coming(s) && !Queued(s, e.id)
            && forall more :: Unprompted(more) ==> !Attempts(s, more, e.id)
  {
    var t: Table := map[e.id := e];
    var s0 := Init(1).(table := t, unannounced := 1);
    assert Run(Init(1), [Receive(e)]) == s0 by {
      RunOne(Init(1), Receive(e));
      OneWorkerMoves(Init(1), Receive(e));
    }
    var pass := [TakeForwardJob(0)] + [List(0, [e]), Post(0, Rejected), PassDone(0)];
    RefusedPass(s0, e);
    RunConcat(Init(1), [Receive(e)], pass);
    assert [Receive(e)] + pass
        == [Receive(e), TakeForwardJob(0), List(0, [e]), Post(0, Rejected), PassDone(0)];
    var s := Run(s0, pass);
    forall more | Unprompted(more) ensures !Attempts(s, more, e.id) {
      SettledIsOver(s, more, e.id);
    }
  }

  /** A pass over one event that the target refuses. */
  lemma RefusedPass(s: State, e: Event)
    requires s.workers == [Idle] && s.forwardJob && s.table == map[e.id := e] && e.Pending()
    ensures Run(s, [TakeForwardJob(0)] + [List(0, [e]), Post(0, Rejected), PassDone(0)])
         == s.(forwardJob := false, gaugeJob := true, log := s.log + [Sent(0, e, Rejected)])
  {
    WakeOne(s);
    OneRefused(s.(forwardJob := false, workers := [Woken]), e);
    RunConcat(s, [TakeForwardJob(0)], [List(0, [e]), Post(0, Rejected), PassDone(0)]);
  }

  lemma WakeOne(s: State)
    requires s.workers == [Idle] && s.forwardJob
    ensures Run(s, [TakeForwardJob(0)]) == s.(forwardJob := false, workers := [Woken])
  {
    RunOne(s, TakeForwardJob(0));
    OneWorkerMoves(s, TakeForwardJob(0));
    assert s.workers[0 := Woken] == [Woken];
  }

  lemma OneRefused(s: State, e: Event)
    requires s.workers == [Woken] && s.table == map[e.id := e] && e.Pending()
    ensures Run(s, [List(0, [e]), Post(0, Rejected), PassDone(0)])
         == s.(workers := [Idle], gaugeJob := true, log := s.log + [Sent(0, e, Rejected)])
  {
    var s1 := s.(workers := [Busy([e])]);
    var s2 := s.(workers := [Busy([])], log := s.log + [Sent(0, e, Rejected)]);
    ListOne(s, e);
    RefuseOne(s1, e);
    RunVia(s, [List(0, [e])], s1, [Post(0, Rejected)], s2);
    DoneOne(s2);
    RunVia(s, [List(0, [e])] + [Post(0, Rejected)], s2, [PassDone(0)], s2.(workers := [Idle], gaugeJob := true));
    assert [List(0, [e])] + [Post(0, Rejected)] + [PassDone(0)] == [List(0, [e]), Post(0, Rejected), PassDone(0)];
  }

  lemma ListOne(s: State, e: Event)
    requires s.workers == [Woken] && s.table == map[e.id := e] && e.Pending()
    ensures Run(s, [List(0, [e])]) == s.(workers := [Busy([e])])
  {
    assert Ids([e]) == [e.id];
    ListStep(s, 0, [e]);
    assert s.workers[0 := Busy([e])] == [Busy([e])];
  }

  lemma RefuseOne(s: State, e: Event)
    requires s.workers == [Busy([e])]
    ensures Run(s, [Post(0, Rejected)]) == s.(workers := [Busy([])], log := s.log + [Sent(0, e, Rejected)])
  {
    assert [e] + [] == [e];
    PostStep(s, 0, e, [], Rejected);
    assert s.workers[0 := Busy([])] == [Busy([])];
  }

  lemma DoneOne(s: State)
    requires s.workers == [Busy([])]
    ensures Run(s, [PassDone(0)]) == s.(workers := [Idle], gaugeJob := true)
  {
    DoneStep(s, 0);
    assert s.workers[0 := Idle] == [Idle];
  }

  // ---- from a request to the post ----

  lemma QueueLeaves(s: State, x: Step, w: nat, id: string)
    requires w < |s.workers| && s.workers[w].Queues(id) && !(Enabled(s, x) && x == Restart)
    ensures |Next(s, x).workers| == |s.workers|
    ensures Next(s, x).workers[w].Queues(id) || (Enabled(s, x) && x.Post? && x.worker == w && PostsNext(s, w, id))
  {
    if Enabled(s, x) && Moves(x, w) {
      var todo := s.workers[w].todo;
      assert todo != [] && todo == [todo[0]] + todo[1..];
    }
  }

  /** Step p of the run is an attempt of worker w to forward the id. */
  ghost predicate AttemptAt(width: nat, steps: seq<Step>, p: nat, w: nat, id: string) {
    p < |steps| && steps[p].Post? && steps[p].worker == w && PostsNext(After(width, steps[..p]), w, id)
  }

  /** From point a and before point b, some worker attempts to forward the id. */
  ghost predicate PostedBetween(width: nat, steps: seq<Step>, a: nat, b: nat, id: string) {
    exists p, w :: a <= p < b && AttemptAt(width, steps, p, w, id)
  }

  lemma PostedLater(width: nat, steps: seq<Step>, a: nat, b: nat, id: string)
    requires PostedBetween(width, steps, a, b, id)
    ensures PostedBetween(width, steps, a, b + 1, id)
  {
  }

  predicate QueuesAt(width: nat, steps: seq<Step>, n: nat, w: nat, id: string)
    requires n <= |steps|
  {
    w < |After(width, steps[..n]).workers| && After(width, steps[..n]).workers[w].Queues(id)
  }

  lemma QueueStep(width: nat, steps: seq<Step>, w: nat, id: string, n: nat)
    requires n < |steps| && steps[n] != Restart && QueuesAt(width, steps, n, w, id)
    ensures QueuesAt(width, steps, n + 1, w, id) || AttemptAt(width, steps, n, w, id)
  {
    assert steps[..n + 1][..n] == steps[..n];
    QueueLeaves(After(width, steps[..n]), steps[n], w, id);
  }

  /** What a worker has ahead of it at a leaves only by an attempt, as long as the process lives. */
  lemma {:induction false} QueuedTillPosted(width: nat, steps: seq<Step>, w: nat, id: string, a: nat, b: nat)
    requires a <= b <= |steps| && QueuesAt(width, steps, a, w, id)
    requires forall m :: a <= m < b ==> steps[m] != Restart
    ensures QueuesAt(width, steps, b, w, id) || PostedBetween(width, steps, a, b, id)
  {
    if a == b {
    } else {
      QueuedTillPosted(width, steps, w, id, a, b - 1);
      if PostedBetween(width, steps, a, b - 1, id) {
        PostedLater(width, steps, a, b - 1, id);
      } else {
        QueueStep(width, steps, w, id, b - 1);
      }
    }
  }

  predicate HeldByNone(s: State, id: string) {
    forall w :: 0 <= w < |s.workers| ==> !s.workers[w].Holds(id)
  }

  lemma HeldByNoneQueued(s: State, w: nat, id: string)
    requires HeldByNone(s, id) && w < |s.workers|
    ensures !s.workers[w].Queues(id)
  {
    assert !s.workers[w].Holds(id);
    if s.workers[w].Unmarked? {
      assert forall e :: e in s.workers[w].todo ==> e in s.workers[w].Snapshot();
    }
  }

  /** The last start or call not after n from which on the process lives until n. */
  lemma {:induction false} LastStart(steps: seq<Step>, k: nat, n: nat) returns (start: nat)
    requires k <= n <= |steps| && Called(steps, k)
    ensures k <= start <= n && Called(steps, start)
    ensures forall m :: start <= m < n ==> steps[m] != Restart
    decreases n
  {
    if n == k || steps[n - 1] == Restart {
      start := n;
    } else {
      start := LastStart(steps, k, n - 1);
    }
  }

  /**
   Every request leads to attempts: once nothing more is coming of a call of EnqueueProcessEvents
   and no worker holds the id any more, a row that was pending all along has been posted since the
   call, unless a list failed. Restarts in between do not matter.
   */
  lemma RequestPosted(width: nat, steps: seq<Step>, k: nat, n: nat, id: string)
    requires k <= n <= |steps| && Called(steps, k)
    requires !Coming(After(width, steps[..n])) && HeldByNone(After(width, steps[..n]), id)
    requires forall m :: k <= m < n && steps[m].ListFailed? ==> !Fires(Init(width), steps, m)
    requires forall m :: k <= m < n ==> id in PendingIds(After(width, steps[..m]).table)
    ensures PostedBetween(width, steps, k, n, id)
  {
    var start := LastStart(steps, k, n);
    RequestServed(width, steps, start, n, id);
    var m :| start <= m < n && TakesUp(width, steps, m, id);
    TakenUpIsPosted(width, steps, m, n, id);
  }

  lemma TakenUpIsPosted(width: nat, steps: seq<Step>, m: nat, n: nat, id: string)
    requires m < n <= |steps| && TakesUp(width, steps, m, id) && HeldByNone(After(width, steps[..n]), id)
    requires forall q :: m < q < n ==> steps[q] != Restart
    ensures PostedBetween(width, steps, m + 1, n, id)
  {
    var w := steps[m].worker;
    TakenUpIsQueued(width, steps, m, id);
    QueuedTillPosted(width, steps, w, id, m + 1, n);
    if w < |After(width, steps[..n]).workers| {
      HeldByNoneQueued(After(width, steps[..n]), w, id);
    }
  }

  lemma TakenUpIsQueued(width: nat, steps: seq<Step>, m: nat, id: string)
    requires TakesUp(width, steps, m, id)
    ensures m < |steps| && QueuesAt(width, steps, m + 1, steps[m].worker, id)
  {
    assert steps[..m + 1][..m] == steps[..m];
    var s := After(width, steps[..m]);
    assert After(width, steps[..m + 1]) == Next(s, steps[m]);
  }

  // ---- no more attempts than calls ----

  /** All workers' attempts to forward the id, however they end. */
  function PostsOf(width: nat, steps: seq<Step>, id: string): nat {
    if steps == [] then 0
    else
      var rest, x := steps[..|steps| - 1], steps[|steps| - 1];
      PostsOf(width, rest, id) + if x.Post? && PostsNext(After(width, rest), x.worker, id) then 1 else 0
  }

  /** The workers that have the id ahead of them. */
  function Queueing(workers: seq<Worker>, id: string): nat {
    if workers == [] then 0
    else Queueing(workers[..|workers| - 1], id) + if workers[|workers| - 1].Queues(id) then 1 else 0
  }

  lemma {:induction false} QueueingChange(workers: seq<Worker>, w: nat, to: Worker, id: string)
    requires w < |workers|
    ensures Queueing(workers[w := to], id) + (if workers[w].Queues(id) then 1 else 0)
         == Queueing(workers, id) + if to.Queues(id) then 1 else 0
  {
    var last := |workers| - 1;
    if w < last {
      QueueingChange(workers[..last], w, to, id);
      assert workers[w := to][..last] == workers[..last][w := to];
    } else {
      assert workers[w := to][..last] == workers[..last];
    }
  }

  lemma {:induction false} NoneQueueing(width: nat, id: string)
    ensures Queueing(seq(width, _ => Idle), id) == 0
  {
    if width == 0 {
    } else {
      NoneQueueing(width - 1, id);
      assert seq(width, _ => Idle)[..width - 1] == seq(width - 1, _ => Idle);
    }
  }

  /** One worker's own step: only a list queues the id, and a post of it takes it off the queue. */
  lemma QueueMoves(s: State, x: Step, id: string)
    requires Inv(s) && Enabled(s, x) && IsWorkerStep(x)
    ensures x.worker < |s.workers|
    ensures (if WorkerAfter(s, x, x.worker).Queues(id) then 1 else 0) + (if x.Post? && PostsNext(s, x.worker, id) then 1 else 0)
         <= (if s.workers[x.worker].Queues(id) then 1 else 0) + if x.List? then 1 else 0
  {
    if x.Post? && PostsNext(s, x.worker, id) {
      PostUnqueues(s, x.worker, id);
    } else if !x.List? && !x.ListFailed? && !s.workers[x.worker].Queues(id) {
      QueueShrinks(s, x, x.worker, id);
    }
  }

  /** An id occurs once in a snapshot, so a post of it leaves none behind. */
  lemma PostUnqueues(s: State, w: nat, id: string)
    requires Inv(s) && w < |s.workers| && s.workers[w].Busy? && PostsNext(s, w, id)
    ensures s.workers[w].Queues(id)
    ensures forall e :: e in s.workers[w].todo[1..] ==> e.id != id
  {
  }

  lemma QueueingOwn(s: State, x: Step, id: string)
    requires Inv(s) && Enabled(s, x) && IsWorkerStep(x)
    ensures Queueing(Do(s, x).workers, id) + (if x.Post? && PostsNext(s, x.worker, id) then 1 else 0)
         <= Queueing(s.workers, id) + if x.List? then 1 else 0
  {
    OneWorkerMoves(s, x);
    QueueMoves(s, x, id);
    QueueingChange(s.workers, x.worker, WorkerAfter(s, x, x.worker), id);
  }

  lemma QueueingOthers(s: State, x: Step, id: string)
    requires Enabled(s, x) && !IsWorkerStep(x)
    ensures Queueing(Do(s, x).workers, id) <= Queueing(s.workers, id)
  {
    OneWorkerMoves(s, x);
    NoneQueueing(|s.workers|, id);
  }

  lemma QueueingStep(s: State, x: Step, id: string)
    requires Inv(s)
    ensures Queueing(Next(s, x).workers, id) + (if x.Post? && PostsNext(s, x.worker, id) then 1 else 0)
         <= Queueing(s.workers, id) + if x.List? && Enabled(s, x) then 1 else 0
  {
    if Enabled(s, x) {
      if IsWorkerStep(x) {
        QueueingOwn(s, x, id);
      } else {
        QueueingOthers(s, x, id);
      }
    }
  }

  /** Every attempt costs a pass of its own: no pass attempts an id twice. */
  lemma {:induction false} AttemptsNeedPasses(width: nat, steps: seq<Step>, id: string)
    ensures PostsOf(width, steps, id) + Queueing(After(width, steps).workers, id) <= Passes(width, steps)
  {
    if steps == [] {
      NoneQueueing(width, id);
    } else {
      var rest := steps[..|steps| - 1];
      AttemptsNeedPasses(width, rest, id);
      InvInit(width);
      InvRun(Init(width), rest);
      QueueingStep(After(width, rest), steps[|steps| - 1], id);
    }
  }

  /**
   All workers together attempt an id at most as often as EnqueueProcessEvents has been called,
   the starts of the process included, whatever is replayed and whatever marks fail.
   */
  lemma AttemptsNeedCalls(width: nat, steps: seq<Step>, id: string)
    ensures PostsOf(width, steps, id) <= Calls(steps)
  {
    AttemptsNeedPasses(width, steps, id);
    PassesNeedWakeups(width, steps);
  }

  // ---- a replay that comes to nothing ----

  /** The steps that store an event, get it accepted, and replay it before its mark is issued. */
  function ReplayedBeforeMark(e: Event, uuid: string, now: Time): seq<Step> {
    ([Receive(e)] + FirstAccepted([e])) + ([ReplayRead(0, [e])] + [ReplayWrite(0, uuid, now)])
  }

  /**
   The run that swallows a replay: the replay's update falls between the accepted post and its
   mark. The mark then sets the row, replay stamps and all, to forwarded, and the target has seen
   the event once only, before the replay.
   */
  lemma ReplaySwallowed(e: Event, uuid: string, now: Time, later: Time)
    requires IsNew(e)
    ensures var s := After(1, ReplayedBeforeMark(e, uuid, now));
            var s' := Next(s, MarkApplied(0, later));
            && s.table == map[e.id := Replayed(e, uuid, now)] && MarkUnderway(s, e.id)
            && s'.table == map[e.id := Replayed(e, uuid, now).(forwardedAt := Some(later))]
            && s'.log == s.log == [Sent(0, e, Accepted)]
  {
    var s1 := StoredAndAccepted(e);
    var s2 := s1.(table := map[e.id := Replayed(e, uuid, now)], replays := map[0 := []]);
    ReplayOne(s1, e, uuid, now);
    RunVia(Init(1), [Receive(e)] + FirstAccepted([e]), s1, [ReplayRead(0, [e])] + [ReplayWrite(0, uuid, now)], s2);
    MarkSets(s2, e.id, later);
  }

  lemma ReplayOne(s: State, e: Event, uuid: string, now: Time)
    requires s.table == map[e.id := e] && s.replays == map[]
    ensures Run(s, [ReplayRead(0, [e])] + [ReplayWrite(0, uuid, now)])
         == s.(table := map[e.id := Replayed(e, uuid, now)], replays := map[0 := []])
  {
    var mid := s.(replays := map[0 := [e]]);
    ReadOne(s, e);
    WriteOne(mid, e, uuid, now);
    RunConcat(s, [ReplayRead(0, [e])], [ReplayWrite(0, uuid, now)]);
  }

  lemma StoredAndAccepted(e: Event) returns (s: State)
    requires IsNew(e)
    ensures s == After(1, [Receive(e)] + FirstAccepted([e]))
    ensures s.table == map[e.id := e] && s.replays == map[] && s.log == [Sent(0, e, Accepted)]
    ensures s.workers != [] && s.workers[0] == Unmarked(e, [])
  {
    var t: Table := map[e.id := e];
    var s0 := Init(1).(table := t, unannounced := 1);
    assert After(1, [Receive(e)]) == s0 by {
      RunOne(Init(1), Receive(e));
      OneWorkerMoves(Init(1), Receive(e));
    }
    assert IsPendingList(t, [e]) by {
      assert Ids([e]) == [e.id];
    }
    FirstAcceptedRun(s0, [e]);
    RunConcat(Init(1), [Receive(e)], FirstAccepted([e]));
    s := Run(s0, FirstAccepted([e]));
  }

  lemma ReadOne(s: State, e: Event)
    requires s.table == map[e.id := e] && s.replays == map[]
    ensures Run(s, [ReplayRead(0, [e])]) == s.(replays := map[0 := [e]])
  {
    RunOne(s, ReplayRead(0, [e]));
    OneWorkerMoves(s, ReplayRead(0, [e]));
  }

  lemma WriteOne(s: State, e: Event, uuid: string, now: Time)
    requires s.table == map[e.id := e] && s.replays == map[0 := [e]]
    ensures Run(s, [ReplayWrite(0, uuid, now)])
         == s.(table := map[e.id := Replayed(e, uuid, now)], replays := map[0 := []])
  {
    WriteStep(s, 0, e, [], uuid, now);
    assert s.replays[0 := []] == map[0 := []];
    assert Update(s.table, Replayed(e, uuid, now)) == map[e.id := Replayed(e, uuid, now)];
  }

  lemma MarkSets(s: State, id: string, now: Time)
    requires s.workers != [] && s.workers[0].Owes(id)
    ensures MarkUnderway(s, id)
    ensures Next(s, MarkApplied(0, now)).table == Mark(s.table, id, now) && Next(s, MarkApplied(0, now)).log == s.log
  {
  }
}

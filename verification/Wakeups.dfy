/** The forwarder's one-slot queue: what a wakeup brings about, and what nothing else does. */
module Wakeups {
  import opened Sequences
  import opened Events
  import opened Protocol

  /** A call of EnqueueProcessEvents, by itself or as part of a start of the process. */
  predicate Prompts(x: Step) { x.EnqueueForward? || x.Restart? }

  /** Point k of the run directly follows such a call; the first start is the one before point 0. */
  predicate Called(steps: seq<Step>, k: nat) { k <= |steps| && (k == 0 || Prompts(steps[k - 1])) }

  /** Step m is the ListEvents of a pass. */
  ghost predicate Listing(width: nat, steps: seq<Step>, m: nat) {
    Fires(Init(width), steps, m) && (steps[m].List? || steps[m].ListFailed?)
  }

  predicate Coming(s: State) {
    s.forwardJob || exists w :: 0 <= w < |s.workers| && s.workers[w].Woken?
  }

  lemma CalledIsComing(width: nat, steps: seq<Step>, k: nat)
    requires Called(steps, k)
    ensures Coming(After(width, steps[..k]))
  {
    if k > 0 {
      assert steps[..k][..k - 1] == steps[..k - 1];
    }
  }

  lemma ComingStep(s: State, x: Step)
    requires Coming(s)
    ensures Coming(Next(s, x)) || (Enabled(s, x) && (x.List? || x.ListFailed?))
  {
    if Enabled(s, x) && !s.forwardJob {
      var w :| 0 <= w < |s.workers| && s.workers[w].Woken?;
      assert |Next(s, x).workers| == |s.workers|;
      if !(x.List? || x.ListFailed? || x.Restart?) {
        assert Next(s, x).workers[w] == Woken;
      }
    } else if Enabled(s, x) && x.TakeForwardJob? {
      assert Next(s, x).workers[x.worker] == Woken;
    }
  }

  /**
   A request to process events is never lost to coalescing or to a restart: at any point n after a
   call of EnqueueProcessEvents at k, whether or not its send found the slot taken, there is a token
   in the queue, or a worker that has taken one and not listed yet, or a pass has issued its
   ListEvents since.
   */
  lemma {:induction false} RequestCovered(width: nat, steps: seq<Step>, k: nat, n: nat)
    requires k <= n <= |steps| && Called(steps, k)
    ensures Coming(After(width, steps[..n])) || exists m :: k <= m < n && Listing(width, steps, m)
    decreases n
  {
    if n == k {
      CalledIsComing(width, steps, k);
    } else {
      assert steps[..n][..n - 1] == steps[..n - 1];
      RequestCovered(width, steps, k, n - 1);
      if Coming(After(width, steps[..n - 1])) {
        ComingStep(After(width, steps[..n - 1]), steps[n - 1]);
        if !Coming(After(width, steps[..n])) {
          assert Listing(width, steps, n - 1);
        }
      }
    }
  }

  /** The list of a pass takes up every row pending at that moment, once. */
  lemma ListTakesAll(width: nat, steps: seq<Step>, m: nat, id: string)
    requires Fires(Init(width), steps, m) && steps[m].List?
    ensures id in PendingIds(After(width, steps[..m]).table)
       <==> steps[m].worker < |After(width, steps[..m + 1]).workers| && After(width, steps[..m + 1]).workers[steps[m].worker].Holds(id)
  {
    assert steps[..m + 1][..m] == steps[..m];
    var s, rows, w := After(width, steps[..m]), steps[m].rows, steps[m].worker;
    IdsOf(rows);
    assert ToSet(Ids(rows)) == PendingIds(s.table);
    assert id in PendingIds(s.table) <==> id in Ids(rows);
    assert After(width, steps[..m + 1]).workers[w].Snapshot() == rows;
  }

  /** Step m is a list that puts the id into the snapshot of its worker. */
  ghost predicate TakesUp(width: nat, steps: seq<Step>, m: nat, id: string) {
    && Fires(Init(width), steps, m)
    && steps[m].List?
    && steps[m].worker < |After(width, steps[..m + 1]).workers|
    && After(width, steps[..m + 1]).workers[steps[m].worker].Holds(id)
  }

  /**
   Every request is served: when nothing more is coming of a request and no list failed, each row
   that has been pending since the request has been taken up, restarts or not.
   */
  lemma RequestServed(width: nat, steps: seq<Step>, k: nat, n: nat, id: string)
    requires k <= n <= |steps| && Called(steps, k) && !Coming(After(width, steps[..n]))
    requires forall m :: k <= m < n && steps[m].ListFailed? ==> !Fires(Init(width), steps, m)
    requires forall m :: k <= m < n ==> id in PendingIds(After(width, steps[..m]).table)
    ensures exists m :: k <= m < n && TakesUp(width, steps, m, id)
  {
    RequestCovered(width, steps, k, n);
    var m :| k <= m < n && Listing(width, steps, m);
    ListTakesAll(width, steps, m, id);
    assert TakesUp(width, steps, m, id);
  }

  // ---- passes need wakeups ----

  /** The calls of EnqueueProcessEvents so far, that of the first start included. */
  function Calls(steps: seq<Step>): nat {
    if steps == [] then 1
    else Calls(steps[..|steps| - 1]) + if Prompts(steps[|steps| - 1]) then 1 else 0
  }

  function Passes(width: nat, steps: seq<Step>): nat {
    if steps == [] then 0
    else
      var rest, x := steps[..|steps| - 1], steps[|steps| - 1];
      Passes(width, rest) + if x.List? && Enabled(After(width, rest), x) then 1 else 0
  }

  function WokenWorkers(workers: seq<Worker>): nat {
    if workers == [] then 0
    else WokenWorkers(workers[..|workers| - 1]) + if workers[|workers| - 1].Woken? then 1 else 0
  }

  lemma {:induction false} WokenChange(workers: seq<Worker>, w: nat, to: Worker)
    requires w < |workers|
    ensures WokenWorkers(workers[w := to]) + (if workers[w].Woken? then 1 else 0)
         == WokenWorkers(workers) + if to.Woken? then 1 else 0
  {
    var last := |workers| - 1;
    if w < last {
      WokenChange(workers[..last], w, to);
      assert workers[w := to][..last] == workers[..last][w := to];
    } else {
      assert workers[w := to][..last] == workers[..last];
    }
  }

  lemma {:induction false} NoneWoken(width: nat)
    ensures WokenWorkers(seq(width, _ => Idle)) == 0
  {
    if width == 0 {
    } else {
      NoneWoken(width - 1);
      assert seq(width, _ => Idle)[..width - 1] == seq(width - 1, _ => Idle);
    }
  }

  function Tokens(s: State): nat { WokenWorkers(s.workers) + if s.forwardJob then 1 else 0 }

  lemma WokenMoves(s: State, x: Step)
    requires Enabled(s, x)
    ensures WokenWorkers(Do(s, x).workers) + (if x.List? || x.ListFailed? then 1 else 0)
         <= WokenWorkers(s.workers) + if x.TakeForwardJob? then 1 else 0
  {
    OneWorkerMoves(s, x);
    if IsWorkerStep(x) {
      WokenChange(s.workers, x.worker, WorkerAfter(s, x, x.worker));
    } else {
      NoneWoken(|s.workers|);
    }
  }

  lemma TokenStep(s: State, x: Step)
    ensures Tokens(Next(s, x)) + (if x.List? && Enabled(s, x) then 1 else 0)
         <= Tokens(s) + if Prompts(x) then 1 else 0
  {
    if Enabled(s, x) {
      WokenMoves(s, x);
    }
  }

  /**
   Each pass over the pending rows costs a call of EnqueueProcessEvents of its own: no store,
   replay, failure or timer starts another pass.
   */
  lemma {:induction false} PassesNeedWakeups(width: nat, steps: seq<Step>)
    ensures Passes(width, steps) + Tokens(After(width, steps)) <= Calls(steps)
  {
    if steps == [] {
      NoneWoken(width);
    } else {
      PassesNeedWakeups(width, steps[..|steps| - 1]);
      TokenStep(After(width, steps[..|steps| - 1]), steps[|steps| - 1]);
    }
  }
}

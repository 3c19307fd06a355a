/** How often the target accepts one event: exact accounts and bounds over every run. */
module Redelivery {
  import opened Sequences
  import opened Events
  import opened Protocol

  /** What one worker did for one id over a run. */
  datatype Tally = Tally(
    accepted: nat,  // posts the target accepted
    applied: nat,   // marks that reached the table
    failed: nat,    // marks that did not
    dropped: nat)   // restarts between an accepted post and its mark
  {
    function Plus(t: Tally): Tally {
      Tally(accepted + t.accepted, applied + t.applied, failed + t.failed, dropped + t.dropped)
    }
  }

  const NOTHING := Tally(0, 0, 0, 0)

  /** The worker is about to post this id. */
  predicate PostsNext(s: State, w: nat, id: string) {
    w < |s.workers| && s.workers[w].Busy? && s.workers[w].todo != [] && s.workers[w].todo[0].id == id
  }

  predicate Owes(s: State, w: nat, id: string) { w < |s.workers| && s.workers[w].Owes(id) }

  predicate Forwarded(s: State, id: string) { id in s.table && !s.table[id].Pending() }

  function TallyStep(s: State, x: Step, w: nat, id: string): Tally {
    if x == Post(w, Accepted) && PostsNext(s, w, id) then Tally(1, 0, 0, 0)
    else if x.MarkApplied? && x.worker == w && Owes(s, w, id) then Tally(0, 1, 0, 0)
    else if x == MarkFailed(w) && Owes(s, w, id) then Tally(0, 0, 1, 0)
    else if x == Restart && Owes(s, w, id) then Tally(0, 0, 0, 1)
    else NOTHING
  }

  function TallyOf(width: nat, steps: seq<Step>, w: nat, id: string): Tally {
    if steps == [] then NOTHING
    else
      var rest := steps[..|steps| - 1];
      TallyOf(width, rest, w, id).Plus(TallyStep(After(width, rest), steps[|steps| - 1], w, id))
  }

  /** A replay's UPDATE that sets a forwarded row back to pending. */
  predicate Reopens(s: State, x: Step, id: string) {
    Enabled(s, x) && x.ReplayWrite? && s.replays[x.request][0].id == id && Forwarded(s, id)
  }

  /** How many replay updates of the run did that to this id. */
  function Reopened(width: nat, steps: seq<Step>, id: string): nat {
    if steps == [] then 0
    else
      var rest := steps[..|steps| - 1];
      Reopened(width, rest, id) + if Reopens(After(width, rest), steps[|steps| - 1], id) then 1 else 0
  }

  function One(b: bool): nat { if b then 1 else 0 }

  // ---- every accepted post is accounted for ----

  lemma OwesStep(s: State, x: Step, w: nat, id: string)
    ensures var d := TallyStep(s, x, w, id);
            One(Owes(s, w, id)) + d.accepted == One(Owes(Next(s, x), w, id)) + d.applied + d.failed + d.dropped
  {
  }

  /** An accepted post is followed by its mark, a failed mark or a restart, or the worker is still about to mark it. */
  lemma {:induction false} AcceptedAccount(width: nat, steps: seq<Step>, w: nat, id: string)
    ensures var t := TallyOf(width, steps, w, id);
            t.accepted == t.applied + t.failed + t.dropped + One(Owes(After(width, steps), w, id))
  {
    if steps == [] {
    } else {
      var rest := steps[..|steps| - 1];
      AcceptedAccount(width, rest, w, id);
      OwesStep(After(width, rest), steps[|steps| - 1], w, id);
    }
  }

  /** The requests of one worker for one id that the target accepted. */
  function AcceptedIn(log: seq<Sent>, w: nat, id: string): nat {
    if log == [] then 0
    else
      var last := log[|log| - 1];
      AcceptedIn(log[..|log| - 1], w, id) + One(last.worker == w && last.event.id == id && last.outcome.Accepted?)
  }

  lemma TallyStepIsLogged(s: State, x: Step, w: nat, id: string)
    ensures AcceptedIn(Next(s, x).log, w, id) == AcceptedIn(s.log, w, id) + TallyStep(s, x, w, id).accepted
  {
    if Enabled(s, x) && x.Post? {
      var e := s.workers[x.worker].todo[0];
      assert (s.log + [Sent(x.worker, e, x.outcome)])[..|s.log|] == s.log;
    }
  }

  /** The tally counts the requests the target saw and accepted, neither more nor fewer. */
  lemma {:induction false} TallyIsLogged(width: nat, steps: seq<Step>, w: nat, id: string)
    ensures TallyOf(width, steps, w, id).accepted == AcceptedIn(After(width, steps).log, w, id)
  {
    if steps == [] {
    } else {
      var rest := steps[..|steps| - 1];
      TallyIsLogged(width, rest, w, id);
      TallyStepIsLogged(After(width, rest), steps[|steps| - 1], w, id);
    }
  }

  // ---- one worker against the intervals in which the row is pending ----

  /** Marks applied so far, against reopenings so far, for one worker and one id. */
  predicate Paid(s: State, w: nat, id: string, applied: nat, reopened: nat) {
    if w < |s.workers| && s.workers[w].Holds(id) then applied <= reopened
    else applied <= reopened + One(Forwarded(s, id))
  }

  /** The two ways a row's forwarding state moves. */
  lemma ForwardedMoves(s: State, x: Step, id: string)
    requires Inv(s)
    ensures Forwarded(Next(s, x), id) ==> Forwarded(s, id) || (Enabled(s, x) && x.MarkApplied? && Owes(s, x.worker, id))
    ensures Forwarded(s, id) ==> Forwarded(Next(s, x), id) || Reopens(s, x, id)
  {
    if Enabled(s, x) && x.MarkApplied? {
      assert WorkerOk(s.table, s.workers[x.worker]);
    }
  }

  /** A worker that marks an event holds it no longer. */
  lemma MarkFinishes(s: State, w: nat, now: Time)
    requires Inv(s) && Enabled(s, MarkApplied(w, now))
    ensures !Next(s, MarkApplied(w, now)).workers[w].Holds(s.workers[w].event.id)
    ensures s.workers[w].Holds(s.workers[w].event.id)
    ensures Forwarded(Next(s, MarkApplied(w, now)), s.workers[w].event.id)
  {
    var e, todo := s.workers[w].event, s.workers[w].todo;
    assert WorkerOk(s.table, s.workers[w]);
    assert e == s.workers[w].Snapshot()[0];
    assert Agrees(s.table, e);
    forall k | 0 <= k < |todo| ensures todo[k].id != e.id {
      assert Ids(s.workers[w].Snapshot())[k + 1] == todo[k].id;
    }
  }

  /** A worker comes to hold an id only by listing it, when its row is pending. */
  lemma HoldsOnlyListed(s: State, x: Step, w: nat, id: string)
    requires Enabled(s, x) && w < |s.workers|
    ensures |Do(s, x).workers| == |s.workers|
    ensures Do(s, x).workers[w].Holds(id) ==> s.workers[w].Holds(id) || (x.List? && x.worker == w && !Forwarded(s, id))
  {
    SnapshotMoves(s, x, w);
    if Do(s, x).workers[w].Holds(id) && x.List? && x.worker == w {
      IdsOf(x.rows);
      assert id in ToSet(Ids(x.rows));
    }
  }

  lemma MarkCloses(s: State, x: Step, w: nat, id: string)
    requires Inv(s) && w < |s.workers|
    ensures var marks := TallyStep(s, x, w, id).applied;
            && marks <= 1
            && (marks == 1 ==> s.workers[w].Holds(id) && !Next(s, x).workers[w].Holds(id) && Forwarded(Next(s, x), id))
            && (Reopens(s, x, id) ==> marks == 0)
  {
    if Enabled(s, x) && x.MarkApplied? && x.worker == w {
      MarkFinishes(s, w, x.now);
    }
  }

  lemma ReopenOpens(s: State, x: Step, id: string)
    requires Reopens(s, x, id)
    ensures !Forwarded(Next(s, x), id)
  {
  }

  lemma HoldsMoves(s: State, x: Step, w: nat, id: string)
    requires w < |s.workers|
    ensures |Next(s, x).workers| == |s.workers|
    ensures Next(s, x).workers[w].Holds(id) ==> s.workers[w].Holds(id) || !Forwarded(s, id)
  {
    if Enabled(s, x) {
      HoldsOnlyListed(s, x, w, id);
    }
  }

  lemma PaidStep(s: State, x: Step, w: nat, id: string, applied: nat, reopened: nat)
    requires Inv(s) && w < |s.workers| && Paid(s, w, id, applied, reopened)
    ensures |Next(s, x).workers| == |s.workers|
    ensures Paid(Next(s, x), w, id, applied + TallyStep(s, x, w, id).applied, reopened + One(Reopens(s, x, id)))
  {
    HoldsMoves(s, x, w, id);
    ForwardedMoves(s, x, id);
    MarkCloses(s, x, w, id);
    if Reopens(s, x, id) {
      ReopenOpens(s, x, id);
    }
  }

  lemma {:induction false} PaidRun(width: nat, steps: seq<Step>, w: nat, id: string)
    requires w < width
    ensures |After(width, steps).workers| == width
    ensures Paid(After(width, steps), w, id, TallyOf(width, steps, w, id).applied, Reopened(width, steps, id))
  {
    if steps == [] {
    } else {
      var rest := steps[..|steps| - 1];
      PaidRun(width, rest, w, id);
      InvInit(width);
      InvRun(Init(width), rest);
      PaidStep(After(width, rest), steps[|steps| - 1], w, id, TallyOf(width, rest, w, id).applied, Reopened(width, rest, id));
    }
  }

  /**
   One worker's bound, among any number of workers and whatever the interleaving: it gets an id
   accepted at most once, and once more for each replay update that reopened the row, each mark
   of its own that failed and each restart before its mark.
   */
  lemma WorkerBound(width: nat, steps: seq<Step>, w: nat, id: string)
    requires w < width
    ensures var t := TallyOf(width, steps, w, id);
            t.accepted <= 1 + Reopened(width, steps, id) + t.failed + t.dropped
  {
    PaidRun(width, steps, w, id);
    AcceptedAccount(width, steps, w, id);
  }

  /** The tallies of the first n workers together. */
  function TotalOf(width: nat, steps: seq<Step>, n: nat, id: string): Tally {
    if n == 0 then NOTHING else TotalOf(width, steps, n - 1, id).Plus(TallyOf(width, steps, n - 1, id))
  }

  /** The same share n times. */
  function Shares(n: nat, share: nat): nat {
    if n == 0 then 0 else Shares(n - 1, share) + share
  }

  lemma {:induction false} SharesIsProduct(n: nat, share: nat)
    ensures Shares(n, share) == n * share
  {
    if n == 0 {
    } else {
      SharesIsProduct(n - 1, share);
      assert n * share == (n - 1) * share + share;
    }
  }

  lemma BoundsAdd(all: Tally, one: Tally, shares: nat, share: nat)
    requires all.accepted <= shares + all.failed + all.dropped && one.accepted <= share + one.failed + one.dropped
    ensures var t := all.Plus(one); t.accepted <= shares + share + t.failed + t.dropped
  {
  }

  lemma {:induction false} TotalShares(width: nat, steps: seq<Step>, n: nat, id: string)
    requires n <= width
    ensures var t := TotalOf(width, steps, n, id);
            t.accepted <= Shares(n, 1 + Reopened(width, steps, id)) + t.failed + t.dropped
  {
    if n == 0 {
    } else {
      var share := 1 + Reopened(width, steps, id);
      TotalShares(width, steps, n - 1, id);
      WorkerBound(width, steps, n - 1, id);
      BoundsAdd(TotalOf(width, steps, n - 1, id), TallyOf(width, steps, n - 1, id), Shares(n - 1, share), share);
    }
  }

  /** Bounded redelivery for any number of concurrent workers. */
  lemma BoundedRedelivery(width: nat, steps: seq<Step>, id: string)
    ensures var t := TotalOf(width, steps, width, id);
            t.accepted <= width * (1 + Reopened(width, steps, id)) + t.failed + t.dropped
  {
    TotalShares(width, steps, width, id);
    SharesIsProduct(width, 1 + Reopened(width, steps, id));
  }

  // ---- the exact account for the one worker that the program starts ----

  /** With one worker, an id it holds is still pending, and every applied mark set a pending row. */
  predicate Exact(s: State, id: string, applied: nat, reopened: nat) {
    && |s.workers| == 1
    && (s.workers[0].Holds(id) ==> !Forwarded(s, id))
    && applied == reopened + One(Forwarded(s, id))
  }

  lemma ExactStep(s: State, x: Step, id: string, applied: nat, reopened: nat)
    requires Inv(s) && Exact(s, id, applied, reopened)
    ensures Exact(Next(s, x), id, applied + TallyStep(s, x, 0, id).applied, reopened + One(Reopens(s, x, id)))
  {
    HoldsMoves(s, x, 0, id);
    ForwardedMoves(s, x, id);
    MarkCloses(s, x, 0, id);
    if Reopens(s, x, id) {
      ReopenOpens(s, x, id);
    }
  }

  lemma {:induction false} ExactRun(steps: seq<Step>, id: string)
    ensures Exact(After(1, steps), id, TallyOf(1, steps, 0, id).applied, Reopened(1, steps, id))
  {
    if steps == [] {
    } else {
      var rest := steps[..|steps| - 1];
      ExactRun(rest, id);
      InvInit(1);
      InvRun(Init(1), rest);
      ExactStep(After(1, rest), steps[|steps| - 1], id, TallyOf(1, rest, 0, id).applied, Reopened(1, rest, id));
    }
  }

  /**
   Conservation of deliveries: after any run with one worker, the times the target accepted an
   id are exactly one if it stands as forwarded, plus the replays that reopened it, the failed
   marks, the restarts before a mark, and the mark still to come.
   */
  lemma DeliveryConservation(steps: seq<Step>, id: string)
    ensures var s, t := After(1, steps), TallyOf(1, steps, 0, id);
            t.accepted == One(Forwarded(s, id)) + Reopened(1, steps, id) + t.failed + t.dropped + One(Owes(s, 0, id))
  {
    ExactRun(steps, id);
    AcceptedAccount(1, steps, 0, id);
  }
}

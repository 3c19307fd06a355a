/** From a mark back to the delivery it records, and from a replay on to the delivery it asks for. */
module Deliveries {
  import opened Protocol
  import opened Redelivery

  /** Step p is an accepted post of the id by worker w, and w has not moved from then to point n. */
  ghost predicate LastDelivery(width: nat, steps: seq<Step>, p: nat, n: nat, w: nat, id: string) {
    && p < n <= |steps|
    && steps[p] == Post(w, Accepted)
    && PostsNext(After(width, steps[..p]), w, id)
    && forall q :: p < q < n ==> !(Fires(Init(width), steps, q) && Moves(steps[q], w))
  }

  lemma OwedStep(s: State, x: Step, w: nat, id: string)
    requires Owes(Next(s, x), w, id)
    ensures || (x == Post(w, Accepted) && PostsNext(s, w, id))
            || (Owes(s, w, id) && !(Enabled(s, x) && Moves(x, w)))
  {
  }

  /** A worker about to mark an event has just had it accepted. */
  lemma {:induction false} OwedIsDelivered(width: nat, steps: seq<Step>, n: nat, w: nat, id: string)
    requires n <= |steps| && Owes(After(width, steps[..n]), w, id)
    ensures exists p :: LastDelivery(width, steps, p, n, w, id)
  {
    if n == 0 {
    } else {
      var before, x := After(width, steps[..n - 1]), steps[n - 1];
      assert steps[..n][..n - 1] == steps[..n - 1];
      OwedStep(before, x, w, id);
      if Owes(before, w, id) && !(Enabled(before, x) && Moves(x, w)) {
        OwedIsDelivered(width, steps, n - 1, w, id);
        var p :| LastDelivery(width, steps, p, n - 1, w, id);
        StillLast(width, steps, p, n, w, id);
      } else {
        NowLast(width, steps, n, w, id);
      }
    }
  }

  lemma StillLast(width: nat, steps: seq<Step>, p: nat, n: nat, w: nat, id: string)
    requires 0 < n <= |steps| && LastDelivery(width, steps, p, n - 1, w, id)
    requires !(Enabled(After(width, steps[..n - 1]), steps[n - 1]) && Moves(steps[n - 1], w))
    ensures LastDelivery(width, steps, p, n, w, id)
  {
  }

  lemma NowLast(width: nat, steps: seq<Step>, n: nat, w: nat, id: string)
    requires 0 < n <= |steps| && steps[n - 1] == Post(w, Accepted) && PostsNext(After(width, steps[..n - 1]), w, id)
    ensures LastDelivery(width, steps, n - 1, n, w, id)
  {
  }

  /** Step k set a pending row to forwarded. */
  ghost predicate Sets(width: nat, steps: seq<Step>, k: nat, id: string) {
    && k < |steps|
    && !Forwarded(After(width, steps[..k]), id)
    && Forwarded(After(width, steps[..k + 1]), id)
  }

  lemma SetsAreMarks(width: nat, steps: seq<Step>, k: nat, id: string)
    requires Sets(width, steps, k, id)
    ensures steps[k].MarkApplied? && Fires(Init(width), steps, k) && Owes(After(width, steps[..k]), steps[k].worker, id)
  {
    InvInit(width);
    InvRun(Init(width), steps[..k]);
    assert steps[..k + 1][..k] == steps[..k];
    ForwardedMoves(After(width, steps[..k]), steps[k], id);
  }

  /** Every NULL-to-set transition is a mark whose worker had the id accepted just before. */
  lemma SetsAreDelivered(width: nat, steps: seq<Step>, k: nat, id: string)
    requires Sets(width, steps, k, id)
    ensures steps[k].MarkApplied? && exists p :: LastDelivery(width, steps, p, k, steps[k].worker, id)
  {
    SetsAreMarks(width, steps, k, id);
    OwedIsDelivered(width, steps, k, steps[k].worker, id);
  }

  /** The map from those transitions to deliveries is injective: no delivery serves two of them. */
  lemma DeliveriesDistinct(width: nat, steps: seq<Step>, j: nat, k: nat, p: nat, a: string, b: string)
    requires Sets(width, steps, j, a) && Sets(width, steps, k, b)
    requires steps[j].MarkApplied? && LastDelivery(width, steps, p, j, steps[j].worker, a)
    requires steps[k].MarkApplied? && LastDelivery(width, steps, p, k, steps[k].worker, b)
    ensures j == k && a == b
  {
    assert Fires(Init(width), steps, j) by { SetsAreMarks(width, steps, j, a); }
    assert Fires(Init(width), steps, k) by { SetsAreMarks(width, steps, k, b); }
    assert steps[j].worker == steps[k].worker;
    assert Moves(steps[j], steps[j].worker) && Moves(steps[k], steps[k].worker);
  }

  /** A row that stands as forwarded was accepted by the target earlier in the run. */
  lemma {:induction false} ForwardedMeansDelivered(width: nat, steps: seq<Step>, n: nat, id: string)
    requires n <= |steps| && Forwarded(After(width, steps[..n]), id)
    ensures exists p, w :: 0 <= p < n && steps[p] == Post(w, Accepted) && PostsNext(After(width, steps[..p]), w, id)
  {
    if n == 0 {
    } else {
      assert steps[..n][..n - 1] == steps[..n - 1];
      if Forwarded(After(width, steps[..n - 1]), id) {
        ForwardedMeansDelivered(width, steps, n - 1, id);
      } else {
        SetsAreDelivered(width, steps, n - 1, id);
        var p :| LastDelivery(width, steps, p, n - 1, steps[n - 1].worker, id);
      }
    }
  }

  // ---- does a replay lead to a delivery ----

  /** Somewhere in `more`, run from s, the target accepts a post of the id. */
  ghost predicate Delivers(s: State, more: seq<Step>, id: string) {
    exists k, w :: 0 <= k < |more| && more[k] == Post(w, Accepted) && PostsNext(Run(s, more[..k]), w, id)
  }

  /** Some worker has had this id accepted and not yet issued the mark. */
  predicate MarkUnderway(s: State, id: string) {
    exists w :: 0 <= w < |s.workers| && s.workers[w].Owes(id)
  }

  lemma QuietStep(s: State, x: Step, id: string)
    requires Inv(s) && !Forwarded(s, id) && !MarkUnderway(s, id)
    requires !(x.Post? && x.outcome.Accepted? && PostsNext(s, x.worker, id))
    ensures !Forwarded(Next(s, x), id) && !MarkUnderway(Next(s, x), id)
  {
    ForwardedMoves(s, x, id);
    if Enabled(s, x) {
      forall w | 0 <= w < |Do(s, x).workers| ensures !Do(s, x).workers[w].Owes(id) {
        assert |Do(s, x).workers| == |s.workers|;
        assert !s.workers[w].Owes(id);
      }
    }
  }

  lemma DeliversAt(s: State, more: seq<Step>, k: nat, w: nat, id: string)
    requires k < |more| && more[k] == Post(w, Accepted) && PostsNext(Run(s, more[..k]), w, id)
    ensures Delivers(s, more, id)
  {
  }

  lemma DeliversLater(s: State, rest: seq<Step>, x: Step, id: string)
    requires Delivers(s, rest, id)
    ensures Delivers(s, rest + [x], id)
  {
    var k, w :| 0 <= k < |rest| && rest[k] == Post(w, Accepted) && PostsNext(Run(s, rest[..k]), w, id);
    assert (rest + [x])[..k] == rest[..k];
    DeliversAt(s, rest + [x], k, w, id);
  }

  lemma DeliversLast(s: State, rest: seq<Step>, w: nat, id: string)
    requires PostsNext(Run(s, rest), w, id)
    ensures Delivers(s, rest + [Post(w, Accepted)], id)
  {
    var more := rest + [Post(w, Accepted)];
    assert more[..|rest|] == rest;
    DeliversAt(s, more, |rest|, w, id);
  }

  /** While nothing is delivered, a pending row with no mark underway stays just that. */
  lemma {:induction false} QuietRun(s: State, more: seq<Step>, id: string)
    requires Inv(s) && !Forwarded(s, id) && !MarkUnderway(s, id)
    ensures Delivers(s, more, id) || (!Forwarded(Run(s, more), id) && !MarkUnderway(Run(s, more), id))
  {
    if more == [] {
    } else {
      var rest, x := more[..|more| - 1], more[|more| - 1];
      assert more == rest + [x];
      QuietRun(s, rest, id);
      if Delivers(s, rest, id) {
        DeliversLater(s, rest, x, id);
      } else if x.Post? && x.outcome.Accepted? && PostsNext(Run(s, rest), x.worker, id) {
        DeliversLast(s, rest, x.worker, id);
      } else {
        InvRun(s, rest);
        QuietStep(Run(s, rest), x, id);
      }
    }
  }

  /**
   When a replay is honoured. Take any reachable state in which the row is pending, such as the
   one right after a replay's update. The row can come to stand as forwarded only through a
   fresh delivery if and only if no worker is then between an accepted post and its mark: such
   a mark, issued later, would overwrite the replay with no delivery at all.
   */
  lemma ReplayHonoured(width: nat, steps: seq<Step>, id: string)
    requires id in After(width, steps).table && !Forwarded(After(width, steps), id)
    ensures var s := After(width, steps);
            (forall more :: Forwarded(Run(s, more), id) ==> Delivers(s, more, id)) <==> !MarkUnderway(s, id)
  {
    var s := After(width, steps);
    InvInit(width);
    InvRun(Init(width), steps);
    if MarkUnderway(s, id) {
      LateMarkWins(s, id);
    } else {
      forall more | Forwarded(Run(s, more), id) ensures Delivers(s, more, id) {
        QuietRun(s, more, id);
      }
    }
  }

  lemma LateMarkWins(s: State, id: string)
    requires Inv(s) && MarkUnderway(s, id)
    ensures exists more :: Forwarded(Run(s, more), id) && !Delivers(s, more, id)
  {
    var w :| 0 <= w < |s.workers| && s.workers[w].Owes(id);
    var more := [MarkApplied(w, 1)];
    assert more[..0] == [];
    assert Run(s, more) == Next(Run(s, []), more[0]);
    MarkFinishes(s, w, 1);
    assert Forwarded(Run(s, more), id);
    assert !Delivers(s, more, id);
  }
}

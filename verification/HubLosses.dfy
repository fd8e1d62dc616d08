/**
 * Why a subscriber misses a message (internal/realtime/hub.go), over whole runs: what becomes of a
 * flush is traced back to the snapshot that it took, and the snapshot to who was subscribed.
 */
module HubLosses {
  import opened Batch
  import opened HubCore
  import opened HubDelivery
  import opened HubDeliveryTheorems
  import opened HubSystem
  import HubSafety

  /** What has become of flush k so far follows from the snapshot order that it took. */
  ghost predicate Follows(w: Worker, k: nat, order: seq<nat>) {
    && w.Shaped() && k < |w.drained|
    && if w.fates[k].Pending? then
         k == |w.drained| - 1 && (w.flusher.Building? || w.flusher.Sending?) && w.flusher.snap == order
       else if order == [] then w.fates[k] == NoSubscribers
       else w.fates[k] == NotEncoded || w.fates[k] == FannedOut(order)
  }

  /** Flush k is past its snapshot. */
  ghost predicate Snapped(w: Worker, k: nat) {
    w.Shaped() && k < |w.drained| && (w.fates[k].Pending? ==> k == |w.drained| - 1 && !w.flusher.Drained?)
  }

  /** Only the flush in progress is pending. */
  ghost predicate OnePending(w: Worker) {
    w.Shaped() && forall k :: 0 <= k < |w.fates| ==> (w.fates[k].Pending? <==> w.InFlight() && k == |w.drained| - 1)
  }

  /** A step either leaves worker c alone or moves it by one of the worker functions. */
  ghost predicate Moves(w: Worker, w': Worker, l: Label) {
    || w' == w
    || (w'.drained == w.drained && w'.fates == w.fates && w'.flusher == w.flusher)
    || (w.flusher.Idle? && w' == DrainedOnce(w))
    || (w.flusher.Idle? && w' == w.(flusher := Gone))
    || (w.Shaped() && w.flusher.Drained? && l.Snapshot? && w' == Snapshotted(w, l.order))
    || (l.BuildOne? && w.flusher.Building? && w'.flusher.Building? && w'.flusher.snap == w.flusher.snap
        && w'.drained == w.drained
        && w'.fates == w.fates)
    || (w.Shaped() && w.flusher.Building? && (w' == Encoded(w, true) || w' == Encoded(w, false)))
    || (w.Shaped() && w.flusher.Sending? && w' == SentOne(w))
  }

  /** The labels whose step moves a worker. */
  predicate MovesWorker(l: Label) {
    || l.Push? || l.Drain? || l.Snapshot? || l.BuildOne? || l.Encode? || l.SendOne? || l.IngestExits? || l.FlusherExits?
  }

  lemma OthersStay(cfg: Config, s: Sys, l: Label, c: nat)
    requires s.Shaped() && Enabled(s, l) && c < |s.workers| && (!MovesWorker(l) || l.ch != c)
    ensures c < |Apply(cfg, s, l).workers| && Apply(cfg, s, l).workers[c] == s.workers[c]
  {
  }

  lemma OwnStepMoves(cfg: Config, s: Sys, l: Label)
    requires s.Shaped() && Enabled(s, l) && MovesWorker(l)
    ensures l.ch < |s.workers| == |Apply(cfg, s, l).workers|
            && Moves(s.workers[l.ch], Apply(cfg, s, l).workers[l.ch], l)
  {
  }

  lemma StepMoves(cfg: Config, s: Sys, l: Label, c: nat)
    requires s.Shaped() && Enabled(s, l) && c < |s.workers|
    ensures c < |Apply(cfg, s, l).workers| && Moves(s.workers[c], Apply(cfg, s, l).workers[c], l)
  {
    if MovesWorker(l) && l.ch == c {
      OwnStepMoves(cfg, s, l);
    } else {
      OthersStay(cfg, s, l, c);
    }
  }

  lemma FollowsStep(w: Worker, w': Worker, l: Label, k: nat, order: seq<nat>)
    requires Moves(w, w', l) && OnePending(w) && w'.Shaped() && Follows(w, k, order)
    ensures Follows(w', k, order)
  {
  }

  /** A flush gets past its snapshot only by taking one. */
  lemma SnappedStep(w: Worker, w': Worker, l: Label, k: nat)
    requires Moves(w, w', l) && OnePending(w) && Snapped(w', k) && !Snapped(w, k)
    ensures l.Snapshot? && w.flusher.Drained? && w' == Snapshotted(w, l.order) && k == |w.drained| - 1
    ensures Follows(w', k, l.order)
  {
  }

  lemma RunStep(cfg: Config, run: seq<Sys>, labels: seq<Label>, n: nat, c: nat)
    requires cfg.Sensible() && IsRun(cfg, run, labels) && n + 1 < |run| && c < |run[n].workers|
    ensures c < |run[n + 1].workers| && Moves(run[n].workers[c], run[n + 1].workers[c], labels[n])
    ensures OnePending(run[n].workers[c]) && run[n + 1].workers[c].Shaped()
  {
    HubDelivery.RunInv(cfg, run, labels, n);
    HubDelivery.RunInv(cfg, run, labels, n + 1);
    assert Next(cfg, run[n], labels[n], run[n + 1]);
    StepMoves(cfg, run[n], labels[n], c);
    assert WorkerOk(run[n].issued, run[n].workers[c], c);
    assert WorkerOk(run[n + 1].issued, run[n + 1].workers[c], c);
  }

  /** Once taken, a snapshot decides the flush for the rest of the run. */
  lemma {:induction false} FollowsLater(cfg: Config, run: seq<Sys>, labels: seq<Label>, n: nat, m: nat, c: nat, k: nat,
                                        order: seq<nat>)
    requires cfg.Sensible() && IsRun(cfg, run, labels) && n <= m < |run|
    requires c < |run[n].workers| && Follows(run[n].workers[c], k, order)
    ensures c < |run[m].workers| && Follows(run[m].workers[c], k, order)
    decreases m
  {
    if n < m {
      FollowsLater(cfg, run, labels, n, m - 1, c, k, order);
      RunStep(cfg, run, labels, m - 1, c);
      FollowsStep(run[m - 1].workers[c], run[m].workers[c], labels[m - 1], k, order);
    }
  }

  /** Every flush past its snapshot took one, at some step of the run. */
  lemma {:induction false} TookSnapshot(cfg: Config, run: seq<Sys>, labels: seq<Label>, m: nat, c: nat, k: nat)
    returns (n: nat)
    requires cfg.Sensible() && IsRun(cfg, run, labels) && m < |run|
    requires c < |run[m].workers| && Snapped(run[m].workers[c], k)
    ensures n < m && labels[n].Snapshot? && labels[n].ch == c
    ensures c < |run[n].workers| && k == |run[n].workers[c].drained| - 1
    ensures Follows(run[m].workers[c], k, labels[n].order)
    decreases m
  {
    assert m > 0;
    assert Next(cfg, run[m - 1], labels[m - 1], run[m]);
    assert c < |run[m - 1].workers| by {
      NewWorkersAreIdle(cfg, run[m - 1], labels[m - 1], c);
    }
    RunStep(cfg, run, labels, m - 1, c);
    var w, w' := run[m - 1].workers[c], run[m].workers[c];
    if Snapped(w, k) {
      n := TookSnapshot(cfg, run, labels, m - 1, c, k);
      FollowsStep(w, w', labels[m - 1], k, labels[n].order);
    } else {
      n := m - 1;
      SnappedStep(w, w', labels[n], k);
      OnlyOwnSnapshot(cfg, run[n], labels[n], c);
    }
  }

  lemma NewWorkersAreIdle(cfg: Config, s: Sys, l: Label, c: nat)
    requires s.Shaped() && Enabled(s, l) && c < |Apply(cfg, s, l).workers|
    ensures c < |s.workers| || Apply(cfg, s, l).workers[c] == NewWorker
  {
  }

  lemma OnlyOwnSnapshot(cfg: Config, s: Sys, l: Label, c: nat)
    requires s.Shaped() && Enabled(s, l) && c < |s.workers| && l.Snapshot?
    requires Apply(cfg, s, l).workers[c] != s.workers[c]
    ensures l.ch == c
  {
  }

  // ----- Theorems -----

  /** A snapshot is everyone who is subscribed at that moment, so an empty one means nobody is. */
  lemma SnapshotIsComplete(cfg: Config, run: seq<Sys>, labels: seq<Label>, n: nat, x: nat)
    requires cfg.Sensible() && IsRun(cfg, run, labels) && n < |labels| && labels[n].Snapshot?
    ensures labels[n].ch < |run[n].core.chans|
    ensures x in labels[n].order <==> x in run[n].core.chans[labels[n].ch].subs
    ensures labels[n].order == [] <==> run[n].core.chans[labels[n].ch].subs == {}
  {
    assert Next(cfg, run[n], labels[n], run[n + 1]);
    var order, subs := labels[n].order, run[n].core.chans[labels[n].ch].subs;
    assert order != [] ==> order[0] in subs;
    if subs != {} {
      var y :| y in subs;
      assert y in order;
    }
  }

  /**
   * Every loss has a cause. Flush k of a channel, once settled, took its snapshot at some step n of the
   * run. It was dropped for want of subscribers exactly if the channel had none at that step. Otherwise,
   * unless it could not be encoded, it was offered to exactly the subscribers of that moment: each got its
   * first 200 messages, or missed it because its own queue held 64 batches.
   */
  lemma EveryLossHasACause(cfg: Config, run: seq<Sys>, labels: seq<Label>, m: nat, x: nat, k: nat) returns (n: nat)
    requires cfg.Sensible() && IsRun(cfg, run, labels) && m < |run| && x < |run[m].queues|
    requires x < |run[m].core.subs| && run[m].core.subs[x] < |run[m].workers|
    requires k < |run[m].workers[run[m].core.subs[x]].fates| && !run[m].workers[run[m].core.subs[x]].fates[k].Pending?
    ensures var c, q := run[m].core.subs[x], run[m].queues[x];
            var w := run[m].workers[c];
            && k < |w.drained|
            && n < m && labels[n].Snapshot? && labels[n].ch == c
            && c < |run[n].workers| && c < |run[n].core.chans| && k == |run[n].workers[c].drained| - 1
            && (w.fates[k] == NoSubscribers <==> run[n].core.chans[c].subs == {})
            && (k in Flushes(q.accepted) || k in Missed(q.dropped) <==>
                  w.fates[k] != NotEncoded && x in run[n].core.chans[c].subs)
            && !(k in Flushes(q.accepted) && k in Missed(q.dropped))
            && (forall i :: 0 <= i < |q.accepted| && q.accepted[i].flush == k ==>
                  BareSeq(q.accepted[i].msgs) == Lines(Cut(w.drained[k])))
            && (forall i :: 0 <= i < |q.dropped| && q.dropped[i].flush == k ==>
                  q.dropped[i].backlog == 64)
  {
    var c := run[m].core.subs[x];
    FateDecides(cfg, run, labels, m, x, k);
    assert run[m].workers[c].Shaped() by {
      HubDelivery.RunInv(cfg, run, labels, m);
      assert WorkerOk(run[m].issued, run[m].workers[c], c);
    }
    n := TookSnapshot(cfg, run, labels, m, c, k);
    SnapshotIsComplete(cfg, run, labels, n, x);
  }

  /**
   * The same forwards: who is subscribed when a flush takes its snapshot gets it whole, or misses it with
   * a full queue, or the batch could not be encoded for anybody.
   */
  lemma LiveSubscribersAreServed(cfg: Config, run: seq<Sys>, labels: seq<Label>, n: nat, m: nat, x: nat)
    requires cfg.Sensible() && IsRun(cfg, run, labels) && n < m < |run| && labels[n].Snapshot?
    requires labels[n].ch < |run[n].core.chans| && labels[n].ch < |run[n].workers| <= |run[m].workers|
    requires x in run[n].core.chans[labels[n].ch].subs
    requires var k := |run[n].workers[labels[n].ch].drained| - 1;
             0 <= k < |run[m].workers[labels[n].ch].fates| && !run[m].workers[labels[n].ch].fates[k].Pending?
    ensures x < |run[m].queues|
    ensures var w, q := run[m].workers[labels[n].ch], run[m].queues[x];
            var k := |run[n].workers[labels[n].ch].drained| - 1;
            && k < |w.drained|
            && (|| w.fates[k] == NotEncoded
                || (exists i :: 0 <= i < |q.accepted| && q.accepted[i].flush == k
                                && BareSeq(q.accepted[i].msgs) == Lines(Cut(w.drained[k])))
                || (exists i :: 0 <= i < |q.dropped| && q.dropped[i] == Drop(k, 64)))
  {
    var c, order := labels[n].ch, labels[n].order;
    var k := |run[n].workers[c].drained| - 1;
    SnapshotIsComplete(cfg, run, labels, n, x);
    assert Next(cfg, run[n], labels[n], run[n + 1]);
    RunStep(cfg, run, labels, n, c);
    FollowsLater(cfg, run, labels, n + 1, m, c, k, order);
    SubscribedToChannel(cfg, run, labels, n, m, x, c);
    FateDecides(cfg, run, labels, m, x, k);
    var q := run[m].queues[x];
    if k in Missed(q.dropped) {
      var i :| 0 <= i < |q.dropped| && q.dropped[i].flush == k;
      assert q.dropped[i] == Drop(k, 64);
    }
  }

  lemma SubscriberOf(cfg: Config, s: Sys, c: nat, x: nat)
    requires HubSafety.Inv(cfg, s) && c < |s.core.chans| && x in s.core.chans[c].subs
    ensures x < |s.core.subs| && s.core.subs[x] == c
  {
    assert ChanOk(cfg, s.core, c);
  }

  lemma SubsOnlyGrow(cfg: Config, s: Sys, l: Label)
    requires s.Shaped() && Enabled(s, l)
    ensures s.core.subs <= Apply(cfg, s, l).core.subs
  {
  }

  lemma {:induction false} GrowingKeeps(run: seq<Sys>, n: nat, m: nat)
    requires n <= m < |run| && forall i :: 0 <= i < |run| - 1 ==> run[i].core.subs <= run[i + 1].core.subs
    ensures run[n].core.subs <= run[m].core.subs
    decreases m
  {
    if n < m {
      GrowingKeeps(run, n, m - 1);
      assert run[m - 1].core.subs <= run[m - 1 + 1].core.subs;
    }
  }

  lemma SubsKept(cfg: Config, run: seq<Sys>, labels: seq<Label>, n: nat, m: nat)
    requires IsRun(cfg, run, labels) && n <= m < |run|
    ensures run[n].core.subs <= run[m].core.subs
  {
    forall i | 0 <= i < |run| - 1 ensures run[i].core.subs <= run[i + 1].core.subs {
      assert Next(cfg, run[i], labels[i], run[i + 1]);
      SubsOnlyGrow(cfg, run[i], labels[i]);
    }
    GrowingKeeps(run, n, m);
  }

  /** A subscription keeps its number and its channel. */
  lemma SubscribedToChannel(cfg: Config, run: seq<Sys>, labels: seq<Label>, n: nat, m: nat, x: nat, c: nat)
    requires cfg.Sensible() && IsRun(cfg, run, labels) && n <= m < |run|
    requires c < |run[n].core.chans| && x in run[n].core.chans[c].subs
    ensures x < |run[m].core.subs| == |run[m].queues| && run[m].core.subs[x] == c
  {
    assert |run[m].core.subs| == |run[m].queues| by {
      HubSafety.RunInv(cfg, run, labels, m);
    }
    HubSafety.RunInv(cfg, run, labels, n);
    SubscriberOf(cfg, run[n], c, x);
    SubsKept(cfg, run, labels, n, m);
  }
}

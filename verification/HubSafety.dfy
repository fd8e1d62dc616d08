/**
 * Safety of the hub over whole runs: no send on a closed queue, no queue closed twice, no misuse
 * of the WaitGroup, and a shutdown that closes exactly the subscriptions still there.
 */
module HubSafety {
  import opened Sequences
  import opened HubCore
  import opened HubSystem

  /** How many goroutines of a channel the WaitGroup still counts. */
  function Load(w: Worker): int {
    (if w.ingesting then 1 else 0) + (if w.flusher.Gone? then 0 else 1)
  }

  function Loads(workers: seq<Worker>): (r: seq<int>)
    ensures |r| == |workers| && forall c :: 0 <= c < |workers| ==> r[c] == Load(workers[c])
  {
    seq(|workers|, c requires 0 <= c < |workers| => Load(workers[c]))
  }

  /** Only a flusher, and only of this channel's own subscribers, holds a snapshot. */
  ghost predicate SnapshotOk(s: Sys, c: nat)
    requires s.Shaped() && c < |s.workers|
  {
    var f := s.workers[c].flusher;
    assert s.SnapshotInRange(c);
    f.Building? || f.Sending? ==>
      && (forall i :: 0 <= i < |f.snap| ==> s.core.subs[f.snap[i]] == c)
      && (forall i, j :: 0 <= i < j < |f.snap| ==> f.snap[i] != f.snap[j])
  }

  ghost predicate QueueOk(s: Sys, x: nat)
    requires s.Shaped() && x < |s.queues|
  {
    && (s.queues[x].closed <==> s.closer.ClosingQueues? && x in s.closer.taken && x !in s.closer.left)
    && (if s.closer.NotClosing? then s.core.Live(x) <==> !s.queues[x].left
        else x in s.closer.taken <==> !s.queues[x].left)
  }

  ghost predicate CloserOk(s: Sys) {
    && (s.closer.NotClosing? <==> !s.core.closed)
    && (s.cancelled <==> s.closer.Waiting? || s.closer.ClosingQueues?)
    && (!s.closer.NotClosing? ==> forall x <- s.closer.taken :: x < |s.queues|)
    && (s.closer.ClosingQueues? ==> s.wg == 0 && s.closer.left <= s.closer.taken)
  }

  ghost predicate Inv(cfg: Config, s: Sys) {
    && s.Shaped()
    && HubCore.Inv(cfg, s.core)
    && !s.panicked
    && s.wg == Sum(Loads(s.workers))
    && CloserOk(s)
    && (forall c :: 0 <= c < |s.workers| ==> SnapshotOk(s, c))
    && (forall x :: 0 <= x < |s.queues| ==> QueueOk(s, x))
  }

  lemma InitInv(cfg: Config)
    requires cfg.Sensible()
    ensures Inv(cfg, Init)
  {
  }

  lemma LoadsUpdate(workers: seq<Worker>, c: nat, w: Worker)
    requires c < |workers|
    ensures Sum(Loads(workers[c := w])) == Sum(Loads(workers)) - Load(workers[c]) + Load(w)
  {
    assert Loads(workers[c := w]) == Loads(workers)[c := Load(w)];
    SumUpdate(Loads(workers), c, Load(w));
  }

  /** While a goroutine of any channel is alive, Wait has not returned. */
  lemma AliveMeansCounted(s: Sys, c: nat)
    requires c < |s.workers| && s.wg == Sum(Loads(s.workers))
    ensures Load(s.workers[c]) <= s.wg
  {
    SumBoundsTerm(Loads(s.workers), c);
  }

  // ----- Critical sections of Hub.mu -----

  lemma SubscribeCounts(cfg: Config, s: Sys, id: string)
    requires s.Shaped() && HubCore.Inv(cfg, s.core) && s.wg == Sum(Loads(s.workers))
    requires HubCore.Subscribe(cfg, s.core, id).0.InRange()
    ensures DoSubscribe(cfg, s, id).wg == Sum(Loads(DoSubscribe(cfg, s, id).workers))
  {
    var s' := DoSubscribe(cfg, s, id);
    if |s'.workers| > |s.workers| {
      assert Loads(s'.workers) == Loads(s.workers) + [2];
      SumConcat(Loads(s.workers), [2]);
    }
  }

  lemma SubscribeShapes(cfg: Config, s: Sys, id: string)
    requires cfg.Sensible() && Inv(cfg, s)
    ensures DoSubscribe(cfg, s, id).Shaped() && HubCore.Inv(cfg, DoSubscribe(cfg, s, id).core)
    ensures DoSubscribe(cfg, s, id).wg == Sum(Loads(DoSubscribe(cfg, s, id).workers))
    ensures CloserOk(DoSubscribe(cfg, s, id)) && !DoSubscribe(cfg, s, id).panicked
  {
    var s' := DoSubscribe(cfg, s, id);
    HubCore.SubscribeKeeps(cfg, s.core, id);
    SubscribeAdds(cfg, s.core, id);
    SubscribeCounts(cfg, s, id);
    forall c | 0 <= c < |s'.workers| ensures s'.workers[c].Shaped() && s'.SnapshotInRange(c) {
      assert c < |s.workers| ==> s.SnapshotInRange(c);
    }
  }

  lemma SubscribeKeeps(cfg: Config, s: Sys, id: string)
    requires cfg.Sensible() && Inv(cfg, s)
    ensures Inv(cfg, DoSubscribe(cfg, s, id))
  {
    var s' := DoSubscribe(cfg, s, id);
    SubscribeShapes(cfg, s, id);
    SubscribeAdds(cfg, s.core, id);
    forall c | 0 <= c < |s'.workers| ensures SnapshotOk(s', c) {
      assert c < |s.workers| ==> SnapshotOk(s, c) && s.SnapshotInRange(c);
    }
    forall x | 0 <= x < |s'.queues| ensures QueueOk(s', x) {
      assert x < |s.queues| ==> QueueOk(s, x);
    }
  }

  lemma UnsubscribeKeeps(cfg: Config, s: Sys, x: nat)
    requires Inv(cfg, s) && x < |s.queues|
    ensures Inv(cfg, DoUnsubscribe(s, x))
  {
    var s' := DoUnsubscribe(s, x);
    HubCore.UnsubscribeKeeps(cfg, s.core, x);
    forall c | 0 <= c < |s'.workers| ensures s'.workers[c].Shaped() && s'.SnapshotInRange(c) {
      assert s.SnapshotInRange(c);
    }
    assert s'.Shaped();
    forall c | 0 <= c < |s'.workers| ensures SnapshotOk(s', c) {
      assert SnapshotOk(s, c) && s.SnapshotInRange(c);
    }
    forall y | 0 <= y < |s'.queues| ensures QueueOk(s', y) {
      assert QueueOk(s, y);
    }
  }

  /** Steps that change only the core, and not who is subscribed. */
  lemma CoreOnlyKeeps(cfg: Config, s: Sys, core: Core)
    requires Inv(cfg, s) && HubCore.Inv(cfg, core)
    requires core.closed == s.core.closed && core.subs == s.core.subs && |core.chans| == |s.core.chans|
    requires forall c :: 0 <= c < |core.chans| ==> core.chans[c].subs == s.core.chans[c].subs
    ensures Inv(cfg, s.(core := core))
  {
    var s' := s.(core := core);
    forall c | 0 <= c < |s'.workers| ensures s'.workers[c].Shaped() && s'.SnapshotInRange(c) {
      assert s.SnapshotInRange(c);
    }
    assert s'.Shaped();
    forall c | 0 <= c < |s'.workers| ensures SnapshotOk(s', c) {
      assert SnapshotOk(s, c) && s.SnapshotInRange(c);
    }
    forall y | 0 <= y < |s'.queues| ensures QueueOk(s', y) {
      assert QueueOk(s, y);
    }
  }

  lemma TimerKeeps(cfg: Config, s: Sys, l: Label)
    requires Inv(cfg, s) && Enabled(s, l) && (l.TimerFires? || l.TimerRuns?)
    ensures Inv(cfg, Apply(cfg, s, l))
  {
    if l.TimerFires? {
      HubCore.TimerFiresKeeps(cfg, s.core, l.timer);
      CoreOnlyKeeps(cfg, s, HubCore.TimerFires(s.core, l.timer));
    } else {
      HubCore.TimerRunsKeeps(cfg, s.core, l.timer);
      CoreOnlyKeeps(cfg, s, HubCore.TimerRuns(s.core, l.timer));
    }
  }

  lemma CloseLocksKeeps(cfg: Config, s: Sys)
    requires cfg.Sensible() && Inv(cfg, s)
    ensures Inv(cfg, DoCloseLocks(s))
  {
    if !s.core.closed {
      var s' := DoCloseLocks(s);
      CloseLockedKeeps(cfg, s.core);
      forall c | 0 <= c < |s'.workers| ensures s'.workers[c].Shaped() && s'.SnapshotInRange(c) {
        assert s.SnapshotInRange(c);
      }
      assert s'.Shaped();
      forall c | 0 <= c < |s'.workers| ensures SnapshotOk(s', c) {
        assert SnapshotOk(s, c) && s.SnapshotInRange(c);
      }
      forall x | 0 <= x < |s'.queues| ensures QueueOk(s', x) {
        assert QueueOk(s, x);
        assert ChanOk(cfg, s.core, s.core.subs[x]);
      }
    }
  }

  // ----- Worker steps -----

  /** What f has in its snapshot, if anything, is the channel's own. */
  ghost predicate OwnSnapshot(s: Sys, c: nat, f: Flusher)
    requires s.Shaped() && c < |s.workers|
  {
    f.Building? || f.Sending? ==>
      && (forall i :: 0 <= i < |f.snap| ==> f.snap[i] < |s.queues| && s.core.subs[f.snap[i]] == c)
      && (forall i, j :: 0 <= i < j < |f.snap| ==> f.snap[i] != f.snap[j])
  }

  /** A worker step that touches neither queues nor the closer. */
  lemma WorkerKeeps(cfg: Config, s: Sys, c: nat, w: Worker, issued: seq<Origin>)
    requires Inv(cfg, s) && c < |s.workers| && w.Shaped()
    requires Load(w) == Load(s.workers[c]) || !s.closer.ClosingQueues?
    requires OwnSnapshot(s, c, w.flusher)
    ensures Inv(cfg, s.(workers := s.workers[c := w], issued := issued, wg := s.wg - Load(s.workers[c]) + Load(w)))
  {
    var s' := s.(workers := s.workers[c := w], issued := issued, wg := s.wg - Load(s.workers[c]) + Load(w));
    LoadsUpdate(s.workers, c, w);
    forall d | 0 <= d < |s'.workers| ensures s'.workers[d].Shaped() && s'.SnapshotInRange(d) {
      assert s.SnapshotInRange(d);
    }
    assert s'.Shaped();
    forall d | 0 <= d < |s'.workers| ensures SnapshotOk(s', d) {
      assert SnapshotOk(s, d) && s.SnapshotInRange(d);
    }
    forall x | 0 <= x < |s'.queues| ensures QueueOk(s', x) {
      assert QueueOk(s, x);
    }
  }

  lemma SnapshotKeeps(cfg: Config, s: Sys, c: nat, order: seq<nat>)
    requires Inv(cfg, s) && Enabled(s, Label.Snapshot(c, order))
    ensures Inv(cfg, Apply(cfg, s, Label.Snapshot(c, order)))
  {
    var w := Snapshotted(s.workers[c], order);
    assert ChanOk(cfg, s.core, c);
    assert OwnSnapshot(s, c, w.flusher);
    WorkerKeeps(cfg, s, c, w, s.issued);
  }

  /** Queues may change as long as nobody opens, closes or abandons one. */
  lemma QueuesKeep(cfg: Config, s: Sys, queues: seq<Queue>)
    requires Inv(cfg, s) && |queues| == |s.queues|
    requires forall x :: 0 <= x < |queues| ==>
             queues[x].closed == s.queues[x].closed && queues[x].left == s.queues[x].left
    ensures Inv(cfg, s.(queues := queues))
  {
    var s' := s.(queues := queues);
    forall c | 0 <= c < |s'.workers| ensures s'.SnapshotInRange(c) {
      assert s.SnapshotInRange(c);
    }
    assert s'.Shaped();
    forall c | 0 <= c < |s'.workers| ensures SnapshotOk(s', c) {
      assert SnapshotOk(s, c) && s.SnapshotInRange(c);
    }
    forall y | 0 <= y < |s'.queues| ensures QueueOk(s', y) {
      assert QueueOk(s, y);
    }
  }

  /** A sender is counted by the WaitGroup, so its queue cannot be closed yet. */
  lemma TargetIsOpen(cfg: Config, s: Sys, c: nat)
    requires Inv(cfg, s) && Enabled(s, SendOne(c))
    ensures var f := s.workers[c].flusher;
            f.snap[f.sent] < |s.queues| && !s.queues[f.snap[f.sent]].closed
                && OwnSnapshot(s, c, SentOne(s.workers[c]).flusher)
  {
    assert s.SnapshotInRange(c) && SnapshotOk(s, c);
    var x := s.workers[c].flusher.snap[s.workers[c].flusher.sent];
    AliveMeansCounted(s, c);
    assert QueueOk(s, x);
  }

  lemma SendOneKeeps(cfg: Config, s: Sys, c: nat)
    requires Inv(cfg, s) && Enabled(s, SendOne(c))
    ensures Inv(cfg, DoSendOne(s, c))
  {
    TargetIsOpen(cfg, s, c);
    WorkerKeeps(cfg, s, c, SentOne(s.workers[c]), s.issued);
    QueuesKeep(cfg, s.(workers := s.workers[c := SentOne(s.workers[c])]), DoSendOne(s, c).queues);
  }

  /** Only the goroutines of l.ch move, and the WaitGroup follows their load. */
  ghost predicate OnlyWorkerMoves(s: Sys, s': Sys, c: nat)
    requires s.Shaped() && c < |s.workers|
  {
    && |s'.workers| == |s.workers| && s'.workers[c].Shaped() && OwnSnapshot(s, c, s'.workers[c].flusher)
    && s' == s.(workers := s.workers[c := s'.workers[c]], issued := s'.issued,
                wg := s.wg - Load(s.workers[c]) + Load(s'.workers[c]))
    && (Load(s'.workers[c]) == Load(s.workers[c]) || !s.closer.ClosingQueues?)
  }

  lemma WorkerMoved(cfg: Config, s: Sys, s': Sys, c: nat)
    requires Inv(cfg, s) && c < |s.workers| && OnlyWorkerMoves(s, s', c)
    ensures Inv(cfg, s')
  {
    WorkerKeeps(cfg, s, c, s'.workers[c], s'.issued);
  }

  lemma WorkerRuns(cfg: Config, s: Sys, l: Label)
    requires Inv(cfg, s) && Enabled(s, l) && (l.Push? || l.Drain? || l.BuildOne? || l.Encode?)
    ensures OnlyWorkerMoves(s, Apply(cfg, s, l), l.ch)
  {
    assert SnapshotOk(s, l.ch) && s.SnapshotInRange(l.ch);
    assert Load(Apply(cfg, s, l).workers[l.ch]) == Load(s.workers[l.ch]);
  }

  lemma WorkerExits(cfg: Config, s: Sys, l: Label)
    requires Inv(cfg, s) && Enabled(s, l) && (l.IngestExits? || l.FlusherExits?)
    ensures OnlyWorkerMoves(s, Apply(cfg, s, l), l.ch)
  {
    AliveMeansCounted(s, l.ch);
    assert SnapshotOk(s, l.ch) && s.SnapshotInRange(l.ch);
  }

  lemma WorkerStepKeeps(cfg: Config, s: Sys, l: Label)
    requires Inv(cfg, s) && Enabled(s, l)
    requires l.Push? || l.Drain? || l.BuildOne? || l.Encode? || l.IngestExits? || l.FlusherExits?
    ensures Inv(cfg, Apply(cfg, s, l))
  {
    if l.IngestExits? || l.FlusherExits? {
      WorkerExits(cfg, s, l);
    } else {
      WorkerRuns(cfg, s, l);
    }
    WorkerMoved(cfg, s, Apply(cfg, s, l), l.ch);
  }

  lemma CloseQueueKeeps(cfg: Config, s: Sys, x: nat)
    requires Inv(cfg, s) && Enabled(s, CloseQueue(x))
    ensures Inv(cfg, DoCloseQueue(s, x))
  {
    var s' := DoCloseQueue(s, x);
    assert QueueOk(s, x);
    forall c | 0 <= c < |s'.workers| ensures s'.SnapshotInRange(c) {
      assert s.SnapshotInRange(c);
    }
    assert s'.Shaped();
    forall c | 0 <= c < |s'.workers| ensures SnapshotOk(s', c) {
      assert SnapshotOk(s, c) && s.SnapshotInRange(c);
    }
    forall y | 0 <= y < |s'.queues| ensures QueueOk(s', y) {
      assert QueueOk(s, y);
    }
  }

  lemma CloserStepKeeps(cfg: Config, s: Sys, l: Label)
    requires Inv(cfg, s) && Enabled(s, l) && (l.CloseCancels? || l.WaitReturns?)
    ensures Inv(cfg, Apply(cfg, s, l))
  {
    var s' := Apply(cfg, s, l);
    forall c | 0 <= c < |s'.workers| ensures s'.SnapshotInRange(c) {
      assert s.SnapshotInRange(c);
    }
    assert s'.Shaped();
    forall c | 0 <= c < |s'.workers| ensures SnapshotOk(s', c) {
      assert SnapshotOk(s, c) && s.SnapshotInRange(c);
    }
    forall y | 0 <= y < |s'.queues| ensures QueueOk(s', y) {
      assert QueueOk(s, y);
    }
  }

  lemma StepKeeps(cfg: Config, s: Sys, l: Label)
    requires cfg.Sensible() && Inv(cfg, s) && Enabled(s, l)
    ensures Inv(cfg, Apply(cfg, s, l))
  {
    match l
    case Subscribe(id) => SubscribeKeeps(cfg, s, id);
    case Unsubscribe(x) => UnsubscribeKeeps(cfg, s, x);
    case TimerFires(_) => TimerKeeps(cfg, s, l);
    case TimerRuns(_) => TimerKeeps(cfg, s, l);
    case Snapshot(c, order) => SnapshotKeeps(cfg, s, c, order);
    case SendOne(c) => SendOneKeeps(cfg, s, c);
    case Receive(x) => QueuesKeep(cfg, s, Apply(cfg, s, l).queues);
    case CloseLocks => CloseLocksKeeps(cfg, s);
    case CloseCancels => CloserStepKeeps(cfg, s, l);
    case WaitReturns => CloserStepKeeps(cfg, s, l);
    case CloseQueue(x) => CloseQueueKeeps(cfg, s, x);
    case _ => WorkerStepKeeps(cfg, s, l);
  }

  lemma {:induction false} RunInv(cfg: Config, run: seq<Sys>, labels: seq<Label>, n: nat)
    requires cfg.Sensible() && IsRun(cfg, run, labels) && n < |run|
    ensures Inv(cfg, run[n])
  {
    if n == 0 {
      InitInv(cfg);
    } else {
      RunInv(cfg, run, labels, n - 1);
      assert Next(cfg, run[n - 1], labels[n - 1], run[n]);
      StepKeeps(cfg, run[n - 1], labels[n - 1]);
    }
  }
}

/**
 * Close comes to its end (internal/realtime/hub.go): once it has begun, only finitely many steps are
 * left to the hub's own goroutines, and until it has ended one of them can always be taken.
 */
module HubShutdown {
  import opened Wrappers
  import opened Sequences
  import opened HubCore
  import opened Batch
  import opened ResolverTypes
  import opened HubSystem
  import HubSafety

  /** Steps that bring the end nearer, without any widget, timer or new message. */
  predicate OwnStep(l: Label) {
    WorkerStep(l) || l.CloseCancels? || l.WaitReturns? || l.CloseQueue?
  }

  predicate WorkerStep(l: Label) {
    l.Snapshot? || l.BuildOne? || l.Encode? || l.SendOne? || l.IngestExits? || l.FlusherExits?
  }

  ghost predicate Finished(s: Sys) {
    s.closer.ClosingQueues? && s.closer.left == {}
  }

  // ----- What is left to do -----

  /** What a worker still has to do before it is gone, without another drain. */
  function Work(w: Worker): nat
    requires w.Shaped()
  {
    (if w.ingesting then 1 else 0) +
    match w.flusher
    case Gone => 0
    case Idle => 1
    case Drained => 2
    case Sending(snap, _, sent) => 1 + |snap| - sent
    case Building(snap, _, msgs) => 2 + |snap| + |Cut(w.Raw())| - |msgs|
  }

  function Works(workers: seq<Worker>): (r: seq<int>)
    requires forall c :: 0 <= c < |workers| ==> workers[c].Shaped()
    ensures |r| == |workers| && forall c :: 0 <= c < |workers| ==> r[c] == Work(workers[c])
  {
    seq(|workers|, c requires 0 <= c < |workers| => Work(workers[c]))
  }

  /** What Close itself still has to do: cancel, wait, close each queue. */
  function CloserWork(closer: Closer): nat {
    match closer
    case NotClosing => 0
    case Cancelling(taken) => 2 + |taken|
    case Waiting(taken) => 1 + |taken|
    case ClosingQueues(_, left) => |left|
  }

  ghost function Remaining(s: Sys): int
    requires s.Shaped()
  {
    CloserWork(s.closer) + Sum(Works(s.workers))
  }

  lemma RemainingIsNat(s: Sys)
    requires s.Shaped()
    ensures Remaining(s) >= 0
  {
    if s.workers != [] {
      SumBoundsTerm(Works(s.workers), 0);
    }
  }

  lemma WorksUpdate(workers: seq<Worker>, c: nat, w: Worker)
    requires forall d :: 0 <= d < |workers| ==> workers[d].Shaped()
    requires c < |workers| && w.Shaped()
    ensures Sum(Works(workers[c := w])) == Sum(Works(workers)) - Work(workers[c]) + Work(w)
  {
    assert Works(workers[c := w]) == Works(workers)[c := Work(w)];
    SumUpdate(Works(workers), c, Work(w));
  }

  // ----- Every step -----

  lemma FlusherMovesShrink(w: Worker)
    requires w.Shaped()
    ensures w.flusher.Drained? ==> Snapshotted(w, []).Shaped() && Work(Snapshotted(w, [])) < Work(w)
    ensures w.flusher.Building? && |w.flusher.msgs| == |Cut(w.Raw())| ==>
              && Encoded(w, true).Shaped() && Work(Encoded(w, true)) < Work(w)
              && Encoded(w, false).Shaped() && Work(Encoded(w, false)) < Work(w)
    ensures w.flusher.Sending? ==> SentOne(w).Shaped() && Work(SentOne(w)) < Work(w)
  {
  }

  lemma BuildingShrinks(w: Worker, id: int, answer: Option<Resolution>)
    requires w.Shaped() && w.flusher.Building? && |w.flusher.msgs| < |Cut(w.Raw())|
    ensures BuiltOne(w, id, answer).Shaped() && Work(BuiltOne(w, id, answer)) < Work(w)
  {
  }

  lemma NobodyIsLeft(cfg: Config, s: Core, c: nat)
    requires HubCore.Inv(cfg, s) && s.closed && c < |s.chans|
    ensures s.chans[c].subs == {}
  {
    assert ChanOk(cfg, s, c);
  }

  lemma SomeoneInOrder(order: seq<nat>, subs: set<nat>)
    requires IsOrdering(order, subs)
    ensures order != [] ==> subs != {}
  {
    assert order != [] ==> order[0] in subs;
  }

  /** A worker's own step leaves the others and Close alone. */
  lemma OneWorkerMoves(cfg: Config, s: Sys, l: Label)
    requires s.Shaped() && Enabled(s, l) && WorkerStep(l)
    ensures var s' := Apply(cfg, s, l);
            && l.ch < |s.workers| == |s'.workers| && s'.workers == s.workers[l.ch := s'.workers[l.ch]]
            && s'.closer == s.closer
  {
  }

  /** And it takes something off the worker's own work. */
  lemma WorkerStepShrinks(cfg: Config, s: Sys, l: Label)
    requires HubSafety.Inv(cfg, s) && s.core.closed && Enabled(s, l) && WorkerStep(l)
    requires |Apply(cfg, s, l).workers| == |s.workers|
    ensures var w' := Apply(cfg, s, l).workers[l.ch]; w'.Shaped() && Work(w') < Work(s.workers[l.ch])
  {
    NobodyIsLeft(cfg, s.core, l.ch);
    FlusherMovesShrink(s.workers[l.ch]);
    if l.Snapshot? {
      SomeoneInOrder(l.order, s.core.chans[l.ch].subs);
    } else if l.BuildOne? {
      BuildingShrinks(s.workers[l.ch], |s.issued| + 1, l.answer);
    }
  }

  lemma CloserStepShrinks(cfg: Config, s: Sys, l: Label)
    requires s.Shaped() && Enabled(s, l) && (l.CloseCancels? || l.WaitReturns? || l.CloseQueue?)
    ensures Apply(cfg, s, l).workers == s.workers
    ensures CloserWork(Apply(cfg, s, l).closer) < CloserWork(s.closer)
  {
  }

  lemma DrainAddsOne(w: Worker)
    requires w.Shaped() && w.flusher.Idle?
    ensures DrainedOnce(w).Shaped() && Work(DrainedOnce(w)) == Work(w) + 1
  {
  }

  lemma PushAddsNone(w: Worker, m: ChatMessage)
    requires w.Shaped()
    ensures Pushed(w, m).Shaped() && Work(Pushed(w, m)) == Work(w)
  {
  }

  /** Widgets and timers give the workers and Close nothing more to do. */
  lemma OthersAddNone(cfg: Config, s: Sys, l: Label)
    requires HubSafety.Inv(cfg, s) && s.core.closed && Enabled(s, l)
    requires !OwnStep(l) && !l.Drain? && !l.Push?
    ensures Apply(cfg, s, l).workers == s.workers && Apply(cfg, s, l).closer == s.closer
  {
  }

  /** 1 for a step of the hub's own goroutines. */
  function Own(l: Label): nat {
    if OwnStep(l) then 1 else 0
  }

  function Drains(l: Label): nat {
    if l.Drain? then 1 else 0
  }

  lemma StaysClosed(cfg: Config, s: Sys, l: Label)
    requires s.Shaped() && Enabled(s, l) && s.core.closed
    ensures Apply(cfg, s, l).core.closed
  {
  }

  /** Every own step takes something off, and only a drain of messages that are already there adds to it. */
  lemma StepCosts(cfg: Config, s: Sys, l: Label)
    requires HubSafety.Inv(cfg, s) && s.core.closed && Enabled(s, l) && Apply(cfg, s, l).Shaped()
    ensures Remaining(Apply(cfg, s, l)) + Own(l) <= Remaining(s) + Drains(l)
  {
    var s' := Apply(cfg, s, l);
    if WorkerStep(l) {
      OneWorkerMoves(cfg, s, l);
      WorkerStepShrinks(cfg, s, l);
      WorksUpdate(s.workers, l.ch, s'.workers[l.ch]);
    } else if OwnStep(l) {
      CloserStepShrinks(cfg, s, l);
    } else if l.Drain? {
      DrainAddsOne(s.workers[l.ch]);
      WorksUpdate(s.workers, l.ch, s'.workers[l.ch]);
    } else if l.Push? {
      PushAddsNone(s.workers[l.ch], l.m);
      WorksUpdate(s.workers, l.ch, s'.workers[l.ch]);
    } else {
      OthersAddNone(cfg, s, l);
    }
  }

  // ----- A step can always be taken -----

  lemma {:induction false} SomeoneAlive(workers: seq<Worker>) returns (c: nat)
    requires Sum(HubSafety.Loads(workers)) > 0
    ensures c < |workers| && HubSafety.Load(workers[c]) > 0
  {
    if HubSafety.Load(workers[0]) > 0 {
      c := 0;
    } else {
      assert HubSafety.Loads(workers)[1..] == HubSafety.Loads(workers[1..]);
      c := SomeoneAlive(workers[1..]);
      c := c + 1;
    }
  }

  /** What a cancelled worker does next. */
  function NextMove(w: Worker, c: nat): Label
    requires w.Shaped() && HubSafety.Load(w) > 0
  {
    if w.ingesting then IngestExits(c)
    else
      match w.flusher
      case Idle => FlusherExits(c)
      case Drained => Label.Snapshot(c, [])
      case Building(_, _, msgs) => if |msgs| < |Cut(w.Raw())| then BuildOne(c, None) else Encode(c, true)
      case Sending(_, _, _) => SendOne(c)
  }

  lemma WorkerCanMove(cfg: Config, s: Sys, c: nat)
    requires HubSafety.Inv(cfg, s) && s.closer.Waiting?
    requires c < |s.workers| && HubSafety.Load(s.workers[c]) > 0
    ensures OwnStep(NextMove(s.workers[c], c)) && Enabled(s, NextMove(s.workers[c], c))
  {
    NobodyIsLeft(cfg, s.core, c);
  }

  /** Until Close has ended, some own step is enabled. */
  lemma SomeStepIsEnabled(cfg: Config, s: Sys) returns (l: Label)
    requires HubSafety.Inv(cfg, s) && s.core.closed && !Finished(s)
    ensures OwnStep(l) && Enabled(s, l)
  {
    if s.closer.Cancelling? {
      l := CloseCancels;
    } else if s.closer.ClosingQueues? {
      var x :| x in s.closer.left;
      l := CloseQueue(x);
    } else if s.wg == 0 {
      l := WaitReturns;
    } else {
      if s.workers != [] {
        HubSafety.AliveMeansCounted(s, 0);
      }
      var c := SomeoneAlive(s.workers);
      WorkerCanMove(cfg, s, c);
      l := NextMove(s.workers[c], c);
    }
  }

  // ----- Theorems -----

  function OwnSteps(labels: seq<Label>): nat {
    if labels == [] then 0 else Own(labels[0]) + OwnSteps(labels[1..])
  }

  function AllDrains(labels: seq<Label>): nat {
    if labels == [] then 0 else Drains(labels[0]) + AllDrains(labels[1..])
  }

  lemma {:induction false} PathCosts(cfg: Config, states: seq<Sys>, labels: seq<Label>)
    requires cfg.Sensible() && Path(cfg, states, labels) && HubSafety.Inv(cfg, states[0]) && states[0].core.closed
    ensures HubSafety.Inv(cfg, states[|labels|]) && states[|labels|].core.closed
    ensures Remaining(states[|labels|]) + OwnSteps(labels) <= Remaining(states[0]) + AllDrains(labels)
    decreases |labels|
  {
    if labels != [] {
      assert Next(cfg, states[0], labels[0], states[1]);
      HubSafety.StepKeeps(cfg, states[0], labels[0]);
      StaysClosed(cfg, states[0], labels[0]);
      StepCosts(cfg, states[0], labels[0]);
      forall i | 0 <= i < |labels| - 1 ensures Next(cfg, states[1..][i], labels[1..][i], states[1..][i + 1]) {
        assert Next(cfg, states[i + 1], labels[i + 1], states[i + 2]);
      }
      PathCosts(cfg, states[1..], labels[1..]);
    }
  }

  /**
   * Close cannot be held up for good. From any state in which it has begun, however widgets, timers and
   * the session interfere, the hub's own goroutines take at most Remaining steps, and one more for each
   * further drain; and as long as Close has not ended, one of them can be taken.
   */
  lemma ShutdownMustEnd(cfg: Config, run: seq<Sys>, labels: seq<Label>, n: nat, states: seq<Sys>, more: seq<Label>)
    requires cfg.Sensible() && IsRun(cfg, run, labels) && n < |run| && run[n].core.closed
    requires Path(cfg, states, more) && states[0] == run[n]
    ensures run[n].Shaped() && OwnSteps(more) <= Remaining(run[n]) + AllDrains(more)
    ensures var last := states[|more|];
            last.Shaped() && (Finished(last) || exists l :: OwnStep(l) && Enabled(last, l))
  {
    HubSafety.RunInv(cfg, run, labels, n);
    PathCosts(cfg, states, more);
    var last := states[|more|];
    RemainingIsNat(last);
    if !Finished(last) {
      var l := SomeStepIsEnabled(cfg, last);
    }
  }

  /** labels are steps of the hub's own goroutines that lead from s to the end of Close. */
  ghost predicate Finishes(cfg: Config, s: Sys, states: seq<Sys>, labels: seq<Label>) {
    && Path(cfg, states, labels) && states[0] == s
    && (forall l <- labels :: OwnStep(l))
    && Finished(states[|labels|])
  }

  lemma OneStepBefore(cfg: Config, s: Sys, l: Label, rest: seq<Sys>, more: seq<Label>)
    requires s.Shaped() && Enabled(s, l) && OwnStep(l)
    requires Finishes(cfg, Apply(cfg, s, l), rest, more)
    ensures Finishes(cfg, s, [s] + rest, [l] + more)
  {
    var states, labels := [s] + rest, [l] + more;
    forall i | 0 <= i < |labels| ensures Next(cfg, states[i], labels[i], states[i + 1]) {
      assert i > 0 ==> Next(cfg, rest[i - 1], more[i - 1], rest[i]);
    }
  }

  lemma {:induction false} CloseCanFinish(cfg: Config, s: Sys) returns (states: seq<Sys>, labels: seq<Label>)
    requires cfg.Sensible() && HubSafety.Inv(cfg, s) && s.core.closed
    ensures Finishes(cfg, s, states, labels)
    decreases Remaining(s)
  {
    if Finished(s) {
      states, labels := [s], [];
    } else {
      var l := SomeStepIsEnabled(cfg, s);
      HubSafety.StepKeeps(cfg, s, l);
      StaysClosed(cfg, s, l);
      StepCosts(cfg, s, l);
      RemainingIsNat(Apply(cfg, s, l));
      var rest, more := CloseCanFinish(cfg, Apply(cfg, s, l));
      OneStepBefore(cfg, s, l, rest, more);
      states, labels := [s] + rest, [l] + more;
    }
  }

  /** In whatever state of a run Close is under way, the hub's own goroutines alone can finish it. */
  lemma ShutdownNeverStuck(cfg: Config, run: seq<Sys>, labels: seq<Label>, n: nat)
    requires cfg.Sensible() && IsRun(cfg, run, labels) && n < |run| && run[n].core.closed
    ensures exists states, more :: Finishes(cfg, run[n], states, more)
  {
    HubSafety.RunInv(cfg, run, labels, n);
    var states, more := CloseCanFinish(cfg, run[n]);
  }
}

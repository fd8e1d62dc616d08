/** What the hub guarantees in every state of every run, in terms a caller can read. */
module HubTheorems {
  import opened Wrappers
  import opened Sequences
  import opened HubCore
  import opened HubSystem
  import HubSafety

  // ----- Safety -----

  /** No send on a closed queue, no queue closed twice, no WaitGroup misuse, whatever the interleaving. */
  lemma NeverPanics(cfg: Config, run: seq<Sys>, labels: seq<Label>, n: nat)
    requires cfg.Sensible() && IsRun(cfg, run, labels) && n < |run|
    ensures !run[n].panicked
  {
    HubSafety.RunInv(cfg, run, labels, n);
  }

  /** While some flush can still send, no queue of the hub is closed: closing waits for every worker. */
  lemma SendersKeepQueuesOpen(cfg: Config, run: seq<Sys>, labels: seq<Label>, n: nat, c: nat, x: nat)
    requires cfg.Sensible() && IsRun(cfg, run, labels) && n < |run|
    requires c < |run[n].workers| && x < |run[n].queues|
    requires !run[n].workers[c].flusher.Gone?
    ensures !run[n].queues[x].closed
  {
    HubSafety.RunInv(cfg, run, labels, n);
    HubSafety.AliveMeansCounted(run[n], c);
    assert HubSafety.QueueOk(run[n], x);
  }

  /** The caps, the counter and the teardown bookkeeping. */
  lemma Bookkeeping(cfg: Config, run: seq<Sys>, labels: seq<Label>, n: nat)
    requires cfg.Sensible() && IsRun(cfg, run, labels) && n < |run|
    ensures var s := run[n].core;
            && s.InRange()
            && s.total == Sum(Sizes(s.chans)) && 0 <= s.total <= cfg.maxTotal
            && (forall c :: 0 <= c < |s.chans| ==> |s.chans[c].subs| <= cfg.maxPerChannel)
            && (forall x :: 0 <= x < |s.subs| && s.Live(x) ==> s.Registered(s.subs[x]))
            && (forall c :: 0 <= c < |s.chans| && s.Registered(c) ==> TeardownPending(s, c))
            && (forall c :: 0 <= c < |s.chans| ==> s.chans[c].teardowns <= 1)
            && (forall c :: 0 <= c < |s.chans| && s.chans[c].cancelled ==> s.chans[c].subs == {} && !s.Registered(c))
  {
    HubSafety.RunInv(cfg, run, labels, n);
    var s := run[n].core;
    forall c | 0 <= c < |s.chans|
      ensures |s.chans[c].subs| <= cfg.maxPerChannel && s.chans[c].teardowns <= 1
      ensures s.Registered(c) ==> TeardownPending(s, c)
      ensures s.chans[c].cancelled ==> s.chans[c].subs == {} && !s.Registered(c)
    {
      assert ChanOk(cfg, s, c);
    }
    forall x | 0 <= x < |s.subs| && s.Live(x) ensures s.Registered(s.subs[x]) {
      assert ChanOk(cfg, s, s.subs[x]);
    }
    if |s.chans| > 0 {
      SumBoundsTerm(Sizes(s.chans), 0);
    }
  }

  /** Who is subscribed under id. */
  ghost function Members(s: Core, id: string): set<nat>
    requires s.InRange()
  {
    if id in s.channels then s.chans[s.channels[id]].subs else {}
  }

  /**
   * A new subscription has joined the channel registered under id, which is the old one or a new one: no
   * teardown is pending there, its queue is empty and open, and no other channel has changed.
   */
  ghost predicate Granted(s: Sys, s': Sys, id: string)
    requires s.core.InRange() && s'.core.InRange()
  {
    && id in s'.core.channels
    && var c := s'.core.channels[id];
       && c == (if id in s.core.channels then s.core.channels[id] else |s.core.chans|)
       && s'.core.chans[c].id == id && !s'.core.chans[c].cancelled && s'.core.chans[c].teardown == None
       && s'.core.chans[c].subs == Members(s.core, id) + {|s.core.subs|}
       && s'.core.subs == s.core.subs + [c] && s'.core.total == s.core.total + 1
       && s'.queues == s.queues + [Queue([], false, [], [], false)]
       && |s'.core.chans| >= |s.core.chans|
       && forall d :: 0 <= d < |s.core.chans| && d != c ==> s'.core.chans[d] == s.core.chans[d]
  }

  lemma GrantIs(cfg: Config, s: Sys, id: string)
    requires cfg.Sensible() && HubSafety.Inv(cfg, s) && Refusal(cfg, s.core, id) == None
    requires DoSubscribe(cfg, s, id).core.InRange()
    ensures Granted(s, DoSubscribe(cfg, s, id), id)
  {
    if id in s.core.channels {
      assert ChanOk(cfg, s.core, s.core.channels[id]);
    }
  }

  /**
   * When a Subscribe is refused, and what it gives otherwise: nothing happens exactly in a closed hub, one
   * with maxTotal subscriptions, or for a registered channel with maxPerChannel of them.
   */
  lemma SubscribeIsGranted(cfg: Config, run: seq<Sys>, labels: seq<Label>, n: nat, id: string)
    requires cfg.Sensible() && IsRun(cfg, run, labels) && n < |labels| && labels[n] == Label.Subscribe(id)
    ensures run[n].core.InRange() && run[n + 1].core.InRange()
    ensures var s := run[n].core;
            if s.closed || s.total >= cfg.maxTotal || (id in s.channels && |Members(s, id)| >= cfg.maxPerChannel) then
              run[n + 1] == run[n]
            else Granted(run[n], run[n + 1], id)
  {
    HubSafety.RunInv(cfg, run, labels, n);
    HubSafety.RunInv(cfg, run, labels, n + 1);
    assert Next(cfg, run[n], labels[n], run[n + 1]);
    if Refusal(cfg, run[n].core, id) == None {
      GrantIs(cfg, run[n], id);
    }
  }

  /** A second Unsubscribe of the same subscription, and one after Close, change nothing. */
  lemma UnsubscribeTwice(cfg: Config, s: Core, x: nat)
    requires HubCore.Inv(cfg, s) && x < |s.subs|
    ensures HubCore.Inv(cfg, HubCore.Unsubscribe(s, x))
    ensures HubCore.Unsubscribe(HubCore.Unsubscribe(s, x), x) == HubCore.Unsubscribe(s, x)
    ensures s.closed ==> HubCore.Unsubscribe(s, x) == s
  {
    HubCore.UnsubscribeKeeps(cfg, s, x);
    assert ChanOk(cfg, s, s.subs[x]);
  }

  /**
   * A teardown does not always wait the full delay of the last idle period: a callback that was
   * already waiting for the mutex when a widget came back and left again may do it, while the timer
   * of the new idle period is still armed.
   */
  lemma LateTimerTearsDownEarly(cfg: Config)
    requires cfg.Sensible() && 1 <= cfg.maxTotal
    ensures var s0 := HubCore.Subscribe(cfg, Empty, "a").0;
            s0.InRange() && |s0.subs| == 1 &&
            var s1 := HubCore.Unsubscribe(s0, 0);
            s1.InRange() && |s1.timers| == 1 &&
            var s2 := HubCore.TimerFires(s1, 0);
            s2.InRange() &&
            var s3 := HubCore.Subscribe(cfg, s2, "a").0;
            s3.InRange() && |s3.subs| == 2 &&
            var s4 := HubCore.Unsubscribe(s3, 1);
            s4.InRange() && |s4.timers| == 2 && s4.Registered(0) &&
            var s5 := HubCore.TimerRuns(s4, 0);
            s5.chans[0].cancelled && s5.timers[1].phase == Armed
  {
    EmptyInv(cfg);
    HubCore.SubscribeKeeps(cfg, Empty, "a");
    var s0 := HubCore.Subscribe(cfg, Empty, "a").0;
    assert s0.chans[0].subs == {0};
    HubCore.UnsubscribeKeeps(cfg, s0, 0);
    var s1 := HubCore.Unsubscribe(s0, 0);
    assert s1.chans[0].subs == {};
    HubCore.TimerFiresKeeps(cfg, s1, 0);
    var s2 := HubCore.TimerFires(s1, 0);
    HubCore.SubscribeKeeps(cfg, s2, "a");
    var s3 := HubCore.Subscribe(cfg, s2, "a").0;
    assert s3.chans[0].subs == {1};
    HubCore.UnsubscribeKeeps(cfg, s3, 1);
    var s4 := HubCore.Unsubscribe(s3, 1);
    assert s4.chans[0].subs == {};
  }

  /** The timer that a channel remembers has not expired yet. */
  predicate StillArmed(s: Core, c: nat)
    requires c < |s.chans|
  {
    && s.chans[c].teardown.Some? && s.chans[c].teardown.value < |s.timers|
    && s.timers[s.chans[c].teardown.value].phase == Armed
  }

  /** The callback of timer t, run now, tears its channel down while the channel's current timer is still armed. */
  predicate TearsDownEarly(s: Core, t: nat)
    requires s.InRange() && t < |s.timers|
  {
    var c, s' := s.timers[t].ch, HubCore.TimerRuns(s, t);
    c < |s'.chans| && s'.chans[c].teardowns > s.chans[c].teardowns && StillArmed(s', c)
  }

  /**
   * In every state of every run: a callback is early exactly if its timer is no longer the channel's
   * current one, the current one is still armed, and the channel is registered and empty.
   */
  lemma EarlyExactlyWhenLate(cfg: Config, run: seq<Sys>, labels: seq<Label>, n: nat, t: nat)
    requires cfg.Sensible() && IsRun(cfg, run, labels) && n < |run|
    requires run[n].core.InRange() && t < |run[n].core.timers| && run[n].core.timers[t].phase == Fired
    ensures var s := run[n].core;
            var c := s.timers[t].ch;
            TearsDownEarly(s, t) <==>
            s.Registered(c) && s.chans[c].subs == {} && s.chans[c].teardown != Some(t) && StillArmed(s, c)
  {
    HubSafety.RunInv(cfg, run, labels, n);
    assert ChanOk(cfg, run[n].core, run[n].core.timers[t].ch);
  }

  /** This Subscribe succeeds on a channel whose timer has expired, and its callback waits for the mutex. */
  predicate FindsFired(cfg: Config, s: Core, id: string)
    requires s.InRange()
  {
    && Refusal(cfg, s, id) == None && id in s.channels
    && var ch := s.chans[s.channels[id]];
       ch.teardown.Some? && ch.teardown.value < |s.timers| && s.timers[ch.teardown.value].phase == Fired
  }

  /** Every callback that waits for a registered channel is that of the channel's current timer. */
  ghost predicate FiredIsCurrent(s: Core)
    requires s.InRange()
  {
    forall t :: 0 <= t < |s.timers| && s.timers[t].phase == Fired && s.Registered(s.timers[t].ch) ==>
      s.chans[s.timers[t].ch].teardown == Some(t)
  }

  lemma CurrentAfterAttach(s: Core, c: nat)
    requires s.InRange() && c < |s.chans| && FiredIsCurrent(s) && Attach(s, c).InRange() && s.Registered(c)
    requires s.TeardownInRange(c)
    requires s.chans[c].teardown.Some? ==> s.timers[s.chans[c].teardown.value].phase != Fired
    ensures FiredIsCurrent(Attach(s, c))
  {
    var s' := Attach(s, c);
    forall t | 0 <= t < |s'.timers| && s'.timers[t].phase == Fired && s'.Registered(s'.timers[t].ch)
      ensures s'.chans[s'.timers[t].ch].teardown == Some(t)
    {
      assert s.timers[t] == s'.timers[t];
    }
  }

  lemma CurrentAfterSubscribe(cfg: Config, s: Core, id: string)
    requires HubCore.Inv(cfg, s) && FiredIsCurrent(s) && !FindsFired(cfg, s, id)
    requires HubCore.Subscribe(cfg, s, id).0.InRange()
    ensures FiredIsCurrent(HubCore.Subscribe(cfg, s, id).0)
  {
    if Refusal(cfg, s, id).None? {
      StartChannelInRange(s, id);
      if id in s.channels {
        assert s.TeardownInRange(s.channels[id]);
        CurrentAfterAttach(s, s.channels[id]);
      } else {
        CurrentAfterAttach(StartChannel(s, id), |s.chans|);
      }
    }
  }

  lemma CurrentAfterUnsubscribe(cfg: Config, s: Core, x: nat)
    requires HubCore.Inv(cfg, s) && FiredIsCurrent(s) && x < |s.subs|
    requires HubCore.Unsubscribe(s, x).InRange()
    ensures FiredIsCurrent(HubCore.Unsubscribe(s, x))
  {
    var s' := HubCore.Unsubscribe(s, x);
    forall t | 0 <= t < |s'.timers| && s'.timers[t].phase == Fired && s'.Registered(s'.timers[t].ch)
      ensures s'.chans[s'.timers[t].ch].teardown == Some(t)
    {
      assert ChanOk(cfg, s, s.timers[t].ch);
    }
  }

  lemma CurrentAfterTimer(cfg: Config, s: Core, t: nat)
    requires HubCore.Inv(cfg, s) && FiredIsCurrent(s) && t < |s.timers|
    requires HubCore.TimerFires(s, t).InRange() && HubCore.TimerRuns(s, t).InRange()
    ensures FiredIsCurrent(HubCore.TimerFires(s, t)) && FiredIsCurrent(HubCore.TimerRuns(s, t))
  {
    assert TimerOk(s, t);
  }

  lemma FiredStaysCurrent(cfg: Config, s: Sys, l: Label)
    requires HubSafety.Inv(cfg, s) && Enabled(s, l) && FiredIsCurrent(s.core)
    requires l.Subscribe? ==> !FindsFired(cfg, s.core, l.id)
    requires Apply(cfg, s, l).core.InRange()
    ensures FiredIsCurrent(Apply(cfg, s, l).core)
  {
    if l.Subscribe? {
      CurrentAfterSubscribe(cfg, s.core, l.id);
    } else if l.Unsubscribe? {
      CurrentAfterUnsubscribe(cfg, s.core, l.sub);
    } else if l.TimerFires? {
      HubCore.TimerRunsKeeps(cfg, s.core, l.timer);
      CurrentAfterTimer(cfg, s.core, l.timer);
    } else if l.TimerRuns? {
      HubCore.TimerFiresKeeps(cfg, s.core, l.timer);
      CurrentAfterTimer(cfg, s.core, l.timer);
    } else if l.CloseLocks? {
      assert Apply(cfg, s, l).core.channels == map[];
    } else {
      assert Apply(cfg, s, l).core == s.core;
    }
  }

  lemma {:induction false} FiredIsCurrentInRun(cfg: Config, run: seq<Sys>, labels: seq<Label>, n: nat)
    requires cfg.Sensible() && IsRun(cfg, run, labels) && n < |run|
    requires forall i :: 0 <= i < n && labels[i].Subscribe? && run[i].core.InRange() ==>
             !FindsFired(cfg, run[i].core, labels[i].id)
    ensures run[n].core.InRange() && FiredIsCurrent(run[n].core)
  {
    HubSafety.RunInv(cfg, run, labels, n);
    if n > 0 {
      FiredIsCurrentInRun(cfg, run, labels, n - 1);
      HubSafety.RunInv(cfg, run, labels, n - 1);
      assert Next(cfg, run[n - 1], labels[n - 1], run[n]);
      FiredStaysCurrent(cfg, run[n - 1], labels[n - 1]);
    }
  }

  /** As long as no Subscribe has caught a callback waiting for the mutex, no teardown is early. */
  lemma NoRaceNoEarlyTeardown(cfg: Config, run: seq<Sys>, labels: seq<Label>, n: nat, t: nat)
    requires cfg.Sensible() && IsRun(cfg, run, labels) && n < |run|
    requires forall i :: 0 <= i < n && labels[i].Subscribe? && run[i].core.InRange() ==>
             !FindsFired(cfg, run[i].core, labels[i].id)
    requires run[n].core.InRange() && t < |run[n].core.timers| && run[n].core.timers[t].phase == Fired
    ensures !TearsDownEarly(run[n].core, t)
  {
    FiredIsCurrentInRun(cfg, run, labels, n);
    EarlyExactlyWhenLate(cfg, run, labels, n, t);
  }

  /**
   * Whenever a timer's callback runs, at most the timer's own channel is torn down, and only while it
   * is registered and empty: never a successor under the same id, and never a second time.
   */
  lemma TimersSpareOthers(cfg: Config, run: seq<Sys>, labels: seq<Label>, n: nat, t: nat)
    requires cfg.Sensible() && IsRun(cfg, run, labels) && n < |run|
    requires run[n].core.InRange() && t < |run[n].core.timers|
    ensures var s := run[n].core;
            var s' := HubCore.TimerRuns(s, t);
            var own := s.timers[t].ch;
            && |s'.chans| == |s.chans| && s'.total == s.total
            && (forall id :: id in s.channels && s.channels[id] != own ==>
                  id in s'.channels && s'.channels[id] == s.channels[id])
            && (forall c :: 0 <= c < |s.chans| && c != own ==> s'.chans[c] == s.chans[c])
            && (s'.chans[own].teardowns != s.chans[own].teardowns <==>
                  s.timers[t].phase == Fired && s.chans[own].subs == {} && s.Registered(own))
            && (s'.chans[own].teardowns != s.chans[own].teardowns ==>
                  !s.chans[own].cancelled && s'.chans[own].teardowns == 1 && s.chans[own].id !in s'.channels)
  {
    HubSafety.RunInv(cfg, run, labels, n);
    assert ChanOk(cfg, run[n].core, run[n].core.timers[t].ch);
  }

  // ----- Shutdown -----

  /**
   * The critical section of Close: afterwards the hub is closed and empty, nobody is subscribed, and only
   * timers of channels that were torn down before may still be armed.
   */
  lemma CloseEmptiesTheHub(cfg: Config, run: seq<Sys>, labels: seq<Label>, n: nat)
    requires cfg.Sensible() && IsRun(cfg, run, labels) && n < |labels| && labels[n] == CloseLocks
    ensures run[n].core.InRange() && run[n + 1].core.InRange()
    ensures var s, s' := run[n].core, run[n + 1].core;
            && s'.closed && s'.channels == map[] && s'.total == 0 && |s'.chans| == |s.chans|
            && (forall c :: 0 <= c < |s'.chans| ==> s'.chans[c].subs == {})
            && (!s.closed ==> forall t :: 0 <= t < |s'.timers| && s'.timers[t].phase == Armed ==>
                  !s.Registered(s'.timers[t].ch))
  {
    HubSafety.RunInv(cfg, run, labels, n);
    HubSafety.RunInv(cfg, run, labels, n + 1);
    assert Next(cfg, run[n], labels[n], run[n + 1]);
    var s, s' := run[n].core, run[n + 1].core;
    forall c | 0 <= c < |s'.chans| ensures s'.chans[c].subs == {} {
      assert ChanOk(cfg, s', c);
    }
    if !s.closed {
      forall t | 0 <= t < |s'.timers| && s'.timers[t].phase == Armed ensures !s.Registered(s'.timers[t].ch) {
        assert TimerOk(s, t);
      }
    }
    ClosedIsEmpty(cfg, s');
  }

  lemma ClosedIsEmpty(cfg: Config, s: Core)
    requires HubCore.Inv(cfg, s) && s.closed
    ensures s.channels == map[] && s.total == 0
  {
    forall c | 0 <= c < |s.chans| ensures Sizes(s.chans)[c] == 0 {
      assert ChanOk(cfg, s, c);
    }
    SumOfZeros(Sizes(s.chans));
  }

  /** When Close is through, it has closed exactly the subscriptions that were not unsubscribed before it began. */
  lemma CloseEndsExactlyTheLive(cfg: Config, run: seq<Sys>, labels: seq<Label>, n: nat, x: nat)
    requires cfg.Sensible() && IsRun(cfg, run, labels) && n < |run| && x < |run[n].queues|
    requires run[n].closer.ClosingQueues? && run[n].closer.left == {}
    ensures run[n].queues[x].closed <==> !run[n].queues[x].left
    ensures run[n].core.total == 0 && run[n].core.channels == map[] && run[n].wg == 0
  {
    HubSafety.RunInv(cfg, run, labels, n);
    var s := run[n];
    assert HubSafety.QueueOk(s, x);
    forall c | 0 <= c < |s.core.chans| ensures Sizes(s.core.chans)[c] == 0 {
      assert ChanOk(cfg, s.core, c);
    }
    SumOfZeros(Sizes(s.core.chans));
  }
}

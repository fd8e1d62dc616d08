/**
 * The state that Hub.mu guards (internal/realtime/hub.go), on values, with one function per
 * critical section. Channels, timers and subscriptions are named by their order of creation, so
 * a channel started again under an old id is a different channel.
 */
module HubCore {
  import opened Wrappers
  import opened Sequences

  /** The two caps, after New has replaced zero by the default. */
  datatype Config = Config(maxPerChannel: int, maxTotal: int) {
    predicate Sensible() {
      1 <= maxPerChannel && 0 <= maxTotal
    }
  }

  /** Armed: will expire. Fired: expired, its callback waits for the mutex. */
  datatype TimerPhase = Armed | Fired | Stopped | Done

  datatype Timer = Timer(ch: nat, phase: TimerPhase)

  /** teardowns counts how often the callback has torn this channel down. */
  datatype Chan = Chan(id: string, subs: set<nat>, teardown: Option<nat>, cancelled: bool, teardowns: nat)

  /** subs[x] is the channel of subscription x. */
  datatype Core = Core(
    closed: bool,
    channels: map<string, nat>,
    total: int,
    chans: seq<Chan>,
    timers: seq<Timer>,
    subs: seq<nat>)
  {
    /** Every index that the state holds is in range. */
    ghost predicate InRange() {
      && (forall id <- channels :: channels[id] < |chans|)
      && (forall x :: 0 <= x < |subs| ==> subs[x] < |chans|)
      && (forall t :: 0 <= t < |timers| ==> timers[t].ch < |chans|)
      && (forall c :: 0 <= c < |chans| ==> TeardownInRange(c))
      && (forall c, x :: 0 <= c < |chans| && x in chans[c].subs ==> x < |subs|)
    }

    predicate TeardownInRange(c: nat)
      requires c < |chans|
    {
      chans[c].teardown.Some? ==> chans[c].teardown.value < |timers|
    }

    predicate Registered(c: nat)
      requires c < |chans|
    {
      chans[c].id in channels && channels[chans[c].id] == c
    }

    /** Subscription x still counts: nobody has unsubscribed it and the hub has not dropped it. */
    predicate Live(x: nat)
      requires x < |subs| && subs[x] < |chans|
    {
      x in chans[subs[x]].subs
    }
  }

  const Empty := Core(false, map[], 0, [], [], [])

  datatype SubscribeAnswer = Subscribed(sub: nat) | ErrClosed | ErrTooManySubscribers

  function StopTimer(timers: seq<Timer>, t: nat): (r: seq<Timer>)
    requires t < |timers|
    ensures |r| == |timers|
  {
    if timers[t].phase == Armed then timers[t := timers[t].(phase := Stopped)] else timers
  }

  /** Subscribe refuses before it touches anything. */
  function Refusal(cfg: Config, s: Core, id: string): (r: Option<SubscribeAnswer>)
    requires s.InRange()
  {
    if s.closed then Some(ErrClosed)
    else if s.total >= cfg.maxTotal || (id in s.channels && |s.chans[s.channels[id]].subs| >= cfg.maxPerChannel) then
      Some(ErrTooManySubscribers)
    else None
  }

  function StartChannel(s: Core, id: string): Core {
    s.(chans := s.chans + [Chan(id, {}, None, false, 0)], channels := s.channels[id := |s.chans|])
  }

  function CancelTeardown(s: Core, c: nat): Core
    requires c < |s.chans| && s.TeardownInRange(c)
  {
    var t := s.chans[c].teardown;
    if t.None? then s
    else s.(timers := StopTimer(s.timers, t.value), chans := s.chans[c := s.chans[c].(teardown := None)])
  }

  function AddSubscriber(s: Core, c: nat): Core
    requires c < |s.chans|
  {
    s.(chans := s.chans[c := s.chans[c].(subs := s.chans[c].subs + {|s.subs|})],
       subs := s.subs + [c],
       total := s.total + 1)
  }

  /** Cancels the pending teardown of channel c and adds a fresh subscription to it. */
  function Attach(s: Core, c: nat): Core
    requires s.InRange() && c < |s.chans|
  {
    var ch := s.chans[c];
    assert s.TeardownInRange(c);
    s.(timers := if ch.teardown.Some? then StopTimer(s.timers, ch.teardown.value) else s.timers,
       chans := s.chans[c := ch.(subs := ch.subs + {|s.subs|}, teardown := None)],
       subs := s.subs + [c],
       total := s.total + 1)
  }

  lemma AttachInTwo(s: Core, c: nat)
    requires s.InRange() && c < |s.chans|
    ensures s.TeardownInRange(c)
    ensures Attach(s, c) == AddSubscriber(CancelTeardown(s, c), c)
  {
  }

  lemma StartChannelInRange(s: Core, id: string)
    requires s.InRange()
    ensures StartChannel(s, id).InRange()
  {
    var s' := StartChannel(s, id);
    forall c | 0 <= c < |s'.chans| ensures s'.TeardownInRange(c) {
      assert c < |s.chans| ==> s.TeardownInRange(c);
    }
  }

  function Subscribe(cfg: Config, s: Core, id: string): (r: (Core, SubscribeAnswer))
    requires s.InRange()
  {
    match Refusal(cfg, s, id)
    case Some(why) => (s, why)
    case None =>
      StartChannelInRange(s, id);
      var s1 := if id in s.channels then s else StartChannel(s, id);
      (Attach(s1, s1.channels[id]), Subscribed(|s.subs|))
  }

  function Unsubscribe(s: Core, x: nat): Core
    requires s.InRange() && x < |s.subs|
  {
    var c := s.subs[x];
    var ch := s.chans[c];
    if x !in ch.subs then s
    else
      var rest := ch.subs - {x};
      if rest != {} || s.closed then
        s.(chans := s.chans[c := ch.(subs := rest)], total := s.total - 1)
      else
        s.(chans := s.chans[c := ch.(subs := rest, teardown := Some(|s.timers|))],
           total := s.total - 1,
           timers := s.timers + [Timer(c, Armed)])
  }

  function Leave(s: Core, x: nat): Core
    requires s.InRange() && x < |s.subs|
  {
    var c := s.subs[x];
    s.(chans := s.chans[c := s.chans[c].(subs := s.chans[c].subs - {x})], total := s.total - 1)
  }

  function ArmTeardown(s: Core, c: nat): Core
    requires c < |s.chans|
  {
    s.(chans := s.chans[c := s.chans[c].(teardown := Some(|s.timers|))], timers := s.timers + [Timer(c, Armed)])
  }

  lemma UnsubscribeInTwo(s: Core, x: nat)
    requires s.InRange() && x < |s.subs| && s.Live(x)
    ensures var s1 := Leave(s, x);
            Unsubscribe(s, x) == if s1.chans[s.subs[x]].subs == {} && !s.closed then ArmTeardown(s1, s.subs[x]) else s1
  {
  }

  /** The delay has passed; the callback now waits for the mutex. */
  function TimerFires(s: Core, t: nat): Core
    requires t < |s.timers|
  {
    if s.timers[t].phase == Armed then s.(timers := s.timers[t := s.timers[t].(phase := Fired)]) else s
  }

  /** The callback has the mutex. */
  function TimerRuns(s: Core, t: nat): Core
    requires s.InRange() && t < |s.timers|
  {
    if s.timers[t].phase != Fired then s
    else
      var c := s.timers[t].ch;
      var ch := s.chans[c];
      var s1 := s.(timers := s.timers[t := s.timers[t].(phase := Done)]);
      if ch.subs == {} && s.Registered(c) then
        s1.(channels := s1.channels - {ch.id},
            chans := s1.chans[c := ch.(cancelled := true, teardowns := ch.teardowns + 1)])
      else s1
  }

  function Expire(s: Core, t: nat): Core
    requires t < |s.timers|
  {
    s.(timers := s.timers[t := s.timers[t].(phase := Done)])
  }

  function Deregister(s: Core, c: nat): Core
    requires c < |s.chans|
  {
    var ch := s.chans[c];
    s.(channels := s.channels - {ch.id}, chans := s.chans[c := ch.(cancelled := true, teardowns := ch.teardowns + 1)])
  }

  lemma TimerRunsInTwo(s: Core, t: nat)
    requires s.InRange() && t < |s.timers| && s.timers[t].phase == Fired
    ensures var c := s.timers[t].ch;
            var s1 := Expire(s, t);
            TimerRuns(s, t) == if s1.chans[c].subs == {} && s1.Registered(c) then Deregister(s1, c) else s1
  {
  }

  /** The subscriptions that Close takes with it. */
  function AtClose(s: Core): set<nat>
    requires s.InRange()
  {
    set x | 0 <= x < |s.subs| && s.Registered(s.subs[x]) && s.Live(x)
  }

  predicate StoppedByClose(s: Core, t: nat)
    requires s.InRange() && t < |s.timers|
  {
    s.Registered(s.timers[t].ch) && s.chans[s.timers[t].ch].teardown == Some(t) && s.timers[t].phase == Armed
  }

  /** The critical section of Close. */
  function CloseLocked(s: Core): (Core, set<nat>)
    requires s.InRange()
  {
    if s.closed then (s, {})
    else
      (Core(true, map[], 0,
            seq(|s.chans|, c requires 0 <= c < |s.chans| =>
              if s.Registered(c) then s.chans[c].(subs := {}) else s.chans[c]),
            seq(|s.timers|, t requires 0 <= t < |s.timers| =>
              if StoppedByClose(s, t) then s.timers[t].(phase := Stopped) else s.timers[t]),
            s.subs),
       AtClose(s))
  }

  // The critical section of Close, one registered channel at a time.

  function CloseOne(s: Core, c: nat): Core
    requires c < |s.chans| && s.TeardownInRange(c)
  {
    var ch := s.chans[c];
    s.(timers := if ch.teardown.Some? then StopTimer(s.timers, ch.teardown.value) else s.timers,
       chans := s.chans[c := ch.(subs := {})])
  }

  predicate Among(s: Core, c: nat, ids: set<string>)
    requires c < |s.chans|
  {
    s.Registered(c) && s.chans[c].id in ids
  }

  /** The channels registered under ids have been closed. */
  function CloseSome(s: Core, ids: set<string>): Core
    requires s.InRange()
  {
    s.(chans := seq(|s.chans|, c requires 0 <= c < |s.chans| =>
                  if Among(s, c, ids) then s.chans[c].(subs := {}) else s.chans[c]),
       timers := seq(|s.timers|, t requires 0 <= t < |s.timers| =>
                   if StoppedByClose(s, t) && Among(s, s.timers[t].ch, ids) then s.timers[t].(phase := Stopped)
                   else s.timers[t]))
  }

  function TakenFrom(s: Core, ids: set<string>): set<nat>
    requires s.InRange()
  {
    set x | 0 <= x < |s.subs| && Among(s, s.subs[x], ids) && s.Live(x)
  }

  /** Each channel's timer and subscribers point back to it. */
  ghost predicate Wired(s: Core)
    requires s.InRange()
  {
    && (forall id <- s.channels :: s.chans[s.channels[id]].id == id)
    && (forall c :: 0 <= c < |s.chans| ==> TimerWired(s, c))
    && (forall c, x :: 0 <= c < |s.chans| && x in s.chans[c].subs ==> s.subs[x] == c)
  }

  ghost predicate TimerWired(s: Core, c: nat)
    requires s.InRange() && c < |s.chans|
  {
    s.TeardownInRange(c) && (s.chans[c].teardown.Some? ==> s.timers[s.chans[c].teardown.value].ch == c)
  }

  lemma CloseSomeStep(s: Core, ids: set<string>, id: string)
    requires s.InRange() && Wired(s) && id in s.channels && id !in ids
    ensures var c := s.channels[id];
            var s1 := CloseSome(s, ids);
            && s1.chans[c] == s.chans[c]
            && s1.TeardownInRange(c)
            && CloseSome(s, ids + {id}) == CloseOne(s1, c)
  {
    var c := s.channels[id];
    assert TimerWired(s, c);
    var s1 := CloseSome(s, ids);
    assert CloseSome(s, ids + {id}).chans == CloseOne(s1, c).chans;
    assert CloseSome(s, ids + {id}).timers == CloseOne(s1, c).timers;
  }

  lemma TakenFromStep(s: Core, ids: set<string>, id: string)
    requires s.InRange() && Wired(s) && id in s.channels && id !in ids
    ensures TakenFrom(s, ids + {id}) == TakenFrom(s, ids) + s.chans[s.channels[id]].subs
    ensures TakenFrom(s, ids) !! s.chans[s.channels[id]].subs
  {
  }

  lemma CloseInSteps(s: Core)
    requires s.InRange() && !s.closed
    ensures CloseSome(s, {}) == s && TakenFrom(s, {}) == {}
    ensures CloseLocked(s).0 == CloseSome(s, s.channels.Keys).(closed := true, channels := map[], total := 0)
    ensures CloseLocked(s).1 == TakenFrom(s, s.channels.Keys)
  {
  }

  // ----- Invariant -----

  function Sizes(chans: seq<Chan>): (r: seq<int>)
    ensures |r| == |chans| && forall c :: 0 <= c < |chans| ==> r[c] == |chans[c].subs|
  {
    seq(|chans|, c requires 0 <= c < |chans| => |chans[c].subs|)
  }

  /** A registered channel has a teardown pending exactly when it has no subscribers. */
  ghost predicate TeardownPending(s: Core, c: nat)
    requires s.InRange() && c < |s.chans|
  {
    var ch := s.chans[c];
    if ch.subs == {} then
      s.TeardownInRange(c) && ch.teardown.Some?
      && s.timers[ch.teardown.value].ch == c
      && s.timers[ch.teardown.value].phase in {Armed, Fired}
    else
      ch.teardown == None
  }

  ghost predicate ChanOk(cfg: Config, s: Core, c: nat)
    requires s.InRange() && c < |s.chans|
  {
    var ch := s.chans[c];
    && |ch.subs| <= cfg.maxPerChannel
    && (forall x <- ch.subs :: s.subs[x] == c)
    && (ch.subs != {} ==> s.Registered(c))
    && (s.Registered(c) ==> TeardownPending(s, c) && !ch.cancelled)
    && ch.teardowns <= 1
    && (ch.cancelled <==> ch.teardowns == 1)
  }

  /** At most one timer of a channel can still expire: the one the channel remembers. */
  ghost predicate TimerOk(s: Core, t: nat)
    requires s.InRange() && t < |s.timers|
  {
    s.timers[t].phase == Armed && !s.closed ==> s.chans[s.timers[t].ch].teardown == Some(t)
  }

  ghost predicate Inv(cfg: Config, s: Core) {
    && s.InRange()
    && (forall id <- s.channels :: s.chans[s.channels[id]].id == id)
    && (s.closed ==> s.channels == map[])
    && s.total == Sum(Sizes(s.chans))
    && s.total <= cfg.maxTotal
    && (forall c :: 0 <= c < |s.chans| ==> ChanOk(cfg, s, c))
    && (forall t :: 0 <= t < |s.timers| ==> TimerOk(s, t))
  }

  // ----- Every critical section keeps the invariant -----

  lemma EmptyInv(cfg: Config)
    requires cfg.Sensible()
    ensures Inv(cfg, Empty)
  {
  }

  lemma SizesUpdate(chans: seq<Chan>, c: nat, ch: Chan)
    requires c < |chans|
    ensures Sum(Sizes(chans[c := ch])) == Sum(Sizes(chans)) - |chans[c].subs| + |ch.subs|
  {
    assert Sizes(chans[c := ch]) == Sizes(chans)[c := |ch.subs|];
    SumUpdate(Sizes(chans), c, |ch.subs|);
  }

  lemma AttachKeeps(cfg: Config, s: Core, c: nat)
    requires cfg.Sensible() && s.InRange() && c < |s.chans|
    requires forall id <- s.channels :: s.chans[s.channels[id]].id == id
    requires !s.closed && s.total == Sum(Sizes(s.chans)) && s.total < cfg.maxTotal
    requires s.Registered(c) && |s.chans[c].subs| < cfg.maxPerChannel
    requires forall d :: 0 <= d < |s.chans| && d != c ==> ChanOk(cfg, s, d)
    requires ChanOk(cfg, s, c) || s.chans[c] == Chan(s.chans[c].id, {}, None, false, 0)
    requires forall t :: 0 <= t < |s.timers| ==> TimerOk(s, t)
    ensures Inv(cfg, Attach(s, c))
  {
    var s' := Attach(s, c);
    AttachInRange(s, c);
    SizesUpdate(s.chans, c, s'.chans[c]);
    assert |s'.chans[c].subs| == |s.chans[c].subs| + 1;
    forall d | 0 <= d < |s'.chans| ensures ChanOk(cfg, s', d) {
      AttachChan(cfg, s, c, d);
    }
    AttachKeepsTimers(s, c);
  }

  lemma AttachChan(cfg: Config, s: Core, c: nat, d: nat)
    requires s.InRange() && c < |s.chans| && d < |s.chans| && Attach(s, c).InRange()
    requires s.Registered(c) && |s.chans[c].subs| < cfg.maxPerChannel
    requires ChanOk(cfg, s, c) || s.chans[c] == Chan(s.chans[c].id, {}, None, false, 0)
    requires d != c ==> ChanOk(cfg, s, d)
    ensures d < |Attach(s, c).chans| && ChanOk(cfg, Attach(s, c), d)
  {
    assert s.TeardownInRange(d) && s.TeardownInRange(c);
    if d == c {
      assert Attach(s, c).chans[c].subs == s.chans[c].subs + {|s.subs|};
    }
  }

  lemma AttachInRange(s: Core, c: nat)
    requires s.InRange() && c < |s.chans|
    ensures Attach(s, c).InRange()
  {
    var s' := Attach(s, c);
    forall d | 0 <= d < |s'.chans| ensures s'.TeardownInRange(d) {
      assert s.TeardownInRange(d) && s.TeardownInRange(c);
    }
    forall d, x | 0 <= d < |s'.chans| && x in s'.chans[d].subs ensures x < |s'.subs| {
      assert x in s.chans[d].subs || (d == c && x == |s.subs|);
    }
    assert s.TeardownInRange(c);
    assert |s'.timers| == |s.timers| && |s'.chans| == |s.chans|;
    forall t | 0 <= t < |s'.timers| ensures s'.timers[t].ch < |s'.chans| {
      assert s'.timers[t].ch == s.timers[t].ch;
    }
  }

  lemma AttachKeepsTimers(s: Core, c: nat)
    requires s.InRange() && c < |s.chans| && Attach(s, c).InRange()
    requires forall t :: 0 <= t < |s.timers| ==> TimerOk(s, t)
    ensures forall t :: 0 <= t < |Attach(s, c).timers| ==> TimerOk(Attach(s, c), t)
  {
    assert s.TeardownInRange(c);
    forall t | 0 <= t < |Attach(s, c).timers| ensures TimerOk(Attach(s, c), t) {
      assert TimerOk(s, t);
    }
  }

  lemma SubscribeKeeps(cfg: Config, s: Core, id: string)
    requires cfg.Sensible() && Inv(cfg, s)
    ensures Inv(cfg, Subscribe(cfg, s, id).0)
  {
    if Refusal(cfg, s, id).None? {
      if id in s.channels {
        assert ChanOk(cfg, s, s.channels[id]);
        AttachKeeps(cfg, s, s.channels[id]);
      } else {
        StartChannelInRange(s, id);
        var s1 := StartChannel(s, id);
        assert Sizes(s1.chans) == Sizes(s.chans) + [0];
        SumConcat(Sizes(s.chans), [0]);
        forall d | 0 <= d < |s1.chans| && d != |s.chans| ensures ChanOk(cfg, s1, d) {
          assert ChanOk(cfg, s, d) && s.TeardownInRange(d);
        }
        forall t | 0 <= t < |s1.timers| ensures TimerOk(s1, t) {
          assert TimerOk(s, t);
        }
        AttachKeeps(cfg, s1, |s.chans|);
      }
    }
  }

  /**
   * A refused Subscribe changes nothing; a granted one adds one live subscription and leaves the others as
   * they are.
   */
  lemma SubscribeAdds(cfg: Config, s: Core, id: string)
    requires s.InRange() && Subscribe(cfg, s, id).0.InRange()
    ensures var (s', answer) := Subscribe(cfg, s, id);
            && s'.closed == s.closed
            && |s.chans| <= |s'.chans| <= |s.chans| + 1
            && (answer.Subscribed? ==>
                  && answer.sub == |s.subs|
                  && |s'.subs| == |s.subs| + 1 && s'.subs[..|s.subs|] == s.subs
                  && s'.Live(|s.subs|)
                  && id in s'.channels && s'.channels[id] == s'.subs[|s.subs|]
                  && forall x :: 0 <= x < |s.subs| ==> (s'.Live(x) <==> s.Live(x)))
            && (!answer.Subscribed? ==> s' == s)
  {
  }

  lemma LeaveKeeps(cfg: Config, s: Core, x: nat)
    requires Inv(cfg, s) && x < |s.subs| && s.Live(x)
    requires s.chans[s.subs[x]].subs - {x} != {}
    ensures Inv(cfg, Unsubscribe(s, x))
  {
    var c := s.subs[x];
    var s' := Unsubscribe(s, x);
    assert ChanOk(cfg, s, c);
    SizesUpdate(s.chans, c, s'.chans[c]);
    forall d | 0 <= d < |s'.chans| ensures s'.TeardownInRange(d) {
      assert s.TeardownInRange(d);
    }
    assert s'.InRange();
    forall d | 0 <= d < |s'.chans| ensures ChanOk(cfg, s', d) {
      assert ChanOk(cfg, s, d) && s.TeardownInRange(d);
    }
    forall t | 0 <= t < |s'.timers| ensures TimerOk(s', t) {
      assert TimerOk(s, t);
    }
  }

  lemma LastLeavesKeeps(cfg: Config, s: Core, x: nat)
    requires Inv(cfg, s) && x < |s.subs| && s.Live(x)
    requires s.chans[s.subs[x]].subs == {x}
    ensures Inv(cfg, Unsubscribe(s, x))
  {
    var c := s.subs[x];
    var s' := Unsubscribe(s, x);
    assert ChanOk(cfg, s, c) && s.Registered(c) && s.chans[c].teardown == None;
    SizesUpdate(s.chans, c, s'.chans[c]);
    assert s'.chans[c].subs == {};
    assert s'.TeardownInRange(c);
    forall d | 0 <= d < |s'.chans| ensures s'.TeardownInRange(d) {
      assert s.TeardownInRange(d);
    }
    assert s'.InRange();
    assert ChanOk(cfg, s', c);
    forall d | 0 <= d < |s'.chans| && d != c ensures ChanOk(cfg, s', d) {
      assert ChanOk(cfg, s, d) && s.TeardownInRange(d);
    }
    forall t | 0 <= t < |s'.timers| ensures TimerOk(s', t) {
      assert t < |s.timers| ==> TimerOk(s, t);
    }
  }

  lemma UnsubscribeKeeps(cfg: Config, s: Core, x: nat)
    requires Inv(cfg, s) && x < |s.subs|
    ensures Inv(cfg, Unsubscribe(s, x))
  {
    if s.Live(x) {
      if s.chans[s.subs[x]].subs - {x} == {} {
        assert s.chans[s.subs[x]].subs == {x};
        LastLeavesKeeps(cfg, s, x);
      } else {
        LeaveKeeps(cfg, s, x);
      }
    }
  }

  lemma TimerFiresKeeps(cfg: Config, s: Core, t: nat)
    requires Inv(cfg, s) && t < |s.timers|
    ensures Inv(cfg, TimerFires(s, t))
  {
    var s' := TimerFires(s, t);
    forall d | 0 <= d < |s'.chans| ensures s'.TeardownInRange(d) {
      assert s.TeardownInRange(d);
    }
    assert s'.InRange();
    forall d | 0 <= d < |s'.chans| ensures ChanOk(cfg, s', d) {
      assert ChanOk(cfg, s, d) && s.TeardownInRange(d);
    }
    forall u | 0 <= u < |s'.timers| ensures TimerOk(s', u) {
      assert TimerOk(s, u);
    }
  }

  lemma TimerRunsInRange(s: Core, t: nat)
    requires s.InRange() && t < |s.timers|
    ensures TimerRuns(s, t).InRange()
  {
    var s' := TimerRuns(s, t);
    forall d | 0 <= d < |s'.chans| ensures s'.TeardownInRange(d) {
      assert s.TeardownInRange(d);
    }
  }

  lemma TimerRunsKeepsSizes(s: Core, t: nat)
    requires s.InRange() && t < |s.timers|
    ensures Sum(Sizes(TimerRuns(s, t).chans)) == Sum(Sizes(s.chans))
  {
    var c := s.timers[t].ch;
    SizesUpdate(s.chans, c, TimerRuns(s, t).chans[c]);
    assert s.chans[c := s.chans[c]] == s.chans;
  }

  /** A callback with the mutex leaves every channel in order. */
  lemma TimerRunsChan(cfg: Config, s: Core, t: nat, d: nat)
    requires s.InRange() && t < |s.timers| && s.timers[t].phase == Fired && d < |s.chans| && TimerRuns(s, t).InRange()
    requires (forall id <- s.channels :: s.chans[s.channels[id]].id == id) && ChanOk(cfg, s, d)
    ensures d < |TimerRuns(s, t).chans| && ChanOk(cfg, TimerRuns(s, t), d)
  {
    assert s.TeardownInRange(d);
  }

  lemma TimerRunsKeeps(cfg: Config, s: Core, t: nat)
    requires Inv(cfg, s) && t < |s.timers|
    ensures Inv(cfg, TimerRuns(s, t))
  {
    if s.timers[t].phase == Fired {
      var s' := TimerRuns(s, t);
      TimerRunsInRange(s, t);
      TimerRunsKeepsSizes(s, t);
      forall d | 0 <= d < |s'.chans| ensures ChanOk(cfg, s', d) {
        TimerRunsChan(cfg, s, t, d);
      }
      forall u | 0 <= u < |s'.timers| ensures TimerOk(s', u) {
        assert TimerOk(s, u);
      }
    }
  }

  lemma CloseLockedKeeps(cfg: Config, s: Core)
    requires cfg.Sensible() && Inv(cfg, s)
    ensures Inv(cfg, CloseLocked(s).0)
    ensures CloseLocked(s).0.closed
    ensures forall c :: 0 <= c < |CloseLocked(s).0.chans| ==> CloseLocked(s).0.chans[c].subs == {}
  {
    var s' := CloseLocked(s).0;
    if s.closed {
      forall c | 0 <= c < |s.chans| ensures s.chans[c].subs == {} {
        assert ChanOk(cfg, s, c);
      }
    } else {
      forall c | 0 <= c < |s.chans| ensures s'.chans[c].subs == {} && s'.TeardownInRange(c) {
        assert ChanOk(cfg, s, c) && s.TeardownInRange(c);
      }
      assert s'.InRange();
      SumOfZeros(Sizes(s'.chans));
      forall c | 0 <= c < |s'.chans| ensures ChanOk(cfg, s', c) {
        assert ChanOk(cfg, s, c);
      }
    }
  }
}

/**
 * The hub as the objects of internal/realtime/hub.go. Abs reads them as the value of HubCore; each
 * method is proved to do to that value what the function of the same name does.
 */
module HubObjects {
  import opened Wrappers
  import opened Batch
  import opened ResolverTypes
  import HubCore

  class Timer {
    const ch: Channel
    ghost const index: nat
    var phase: HubCore.TimerPhase

    constructor (ch: Channel, ghost index: nat)
      ensures this.ch == ch && this.index == index && phase == HubCore.Armed
    {
      this.ch := ch;
      this.index := index;
      this.phase := HubCore.Armed;
    }

    /** A timer that has already expired cannot be stopped. */
    method Stop()
      modifies this
      ensures phase == if old(phase) == HubCore.Armed then HubCore.Stopped else old(phase)
    {
      if phase == HubCore.Armed {
        phase := HubCore.Stopped;
      }
    }
  }

  class Channel {
    const id: string
    ghost const index: nat
    var subs: set<Subscription>
    var teardown: Timer?
    var cancelled: bool
    ghost var teardowns: nat
    var buffer: seq<ChatMessage>

    constructor (id: string, ghost index: nat)
      ensures this.id == id && this.index == index
      ensures subs == {} && teardown == null && !cancelled && teardowns == 0 && buffer == []
    {
      this.id := id;
      this.index := index;
      this.subs := {};
      this.teardown := null;
      this.cancelled := false;
      this.teardowns := 0;
      this.buffer := [];
    }

    method Push(m: ChatMessage)
      modifies this`buffer
      ensures buffer == old(buffer) + [m]
    {
      buffer := buffer + [m];
    }

    method Drain() returns (b: seq<ChatMessage>)
      modifies this`buffer
      ensures b == old(buffer) && buffer == []
    {
      b := buffer;
      buffer := [];
    }
  }

  class Subscription {
    const ch: Channel
    ghost const index: nat
    var queue: seq<seq<BatchMessage>>
    var closed: bool

    constructor (ch: Channel, ghost index: nat)
      ensures this.ch == ch && this.index == index && queue == [] && !closed
    {
      this.ch := ch;
      this.index := index;
      this.queue := [];
      this.closed := false;
    }
  }

  class Hub {
    const cfg: HubCore.Config
    var closed: bool
    var channels: map<string, Channel>
    var total: int
    var wg: int
    var nextID: int

    // Everything ever created, in order.
    ghost var allChans: seq<Channel>
    ghost var allTimers: seq<Timer>
    ghost var allSubs: seq<Subscription>

    ghost predicate KnownChan(c: Channel)
      reads this
    {
      c.index < |allChans| && allChans[c.index] == c
    }

    ghost predicate KnownTimer(t: Timer)
      reads this
    {
      t.index < |allTimers| && allTimers[t.index] == t
    }

    ghost predicate KnownSub(s: Subscription)
      reads this
    {
      s.index < |allSubs| && allSubs[s.index] == s
    }

    ghost predicate Valid()
      reads this, allChans
    {
      && (forall i :: 0 <= i < |allChans| ==> allChans[i].index == i)
      && (forall i :: 0 <= i < |allTimers| ==> allTimers[i].index == i && KnownChan(allTimers[i].ch))
      && (forall i :: 0 <= i < |allSubs| ==> allSubs[i].index == i && KnownChan(allSubs[i].ch))
      && (forall id <- channels :: KnownChan(channels[id]) && channels[id].id == id)
      && (forall i :: 0 <= i < |allChans| ==> ChanValid(allChans[i]))
    }

    ghost predicate ChanValid(c: Channel)
      reads this, c
    {
      && (c.teardown != null ==> KnownTimer(c.teardown) && c.teardown.ch == c)
      && (forall s <- c.subs :: KnownSub(s) && s.ch == c)
    }

    static ghost function Indices(subs: set<Subscription>): set<nat> {
      set s | s in subs :: s.index
    }

    static ghost function Index(table: map<string, Channel>): map<string, nat> {
      map id | id in table :: table[id].index
    }

    static lemma IndexWith(table: map<string, Channel>, id: string, ch: Channel)
      ensures Index(table[id := ch]) == Index(table)[id := ch.index]
    {
    }

    static lemma IndexWithout(table: map<string, Channel>, id: string)
      ensures Index(table - {id}) == Index(table) - {id}
    {
    }

    static ghost function AbsChan(c: Channel): HubCore.Chan
      reads c
    {
      var teardown := if c.teardown == null then None else Some(c.teardown.index);
      HubCore.Chan(c.id, Indices(c.subs), teardown, c.cancelled, c.teardowns)
    }

    ghost function Abs(): HubCore.Core
      reads this, allChans, allTimers
    {
      HubCore.Core(
        closed,
        Index(channels),
        total,
        seq(|allChans|, i requires 0 <= i < |allChans| reads this, allChans => AbsChan(allChans[i])),
        seq(|allTimers|, i requires 0 <= i < |allTimers| reads this, allTimers =>
          HubCore.Timer(allTimers[i].ch.index, allTimers[i].phase)),
        seq(|allSubs|, i requires 0 <= i < |allSubs| reads this => allSubs[i].ch.index))
    }

    lemma AbsInRange()
      requires Valid()
      ensures Abs().InRange()
    {
    }

    /** Known subscriptions have different numbers. */
    lemma IndicesSize(subs: set<Subscription>)
      requires Valid() && forall s <- subs :: KnownSub(s)
      ensures |Indices(subs)| == |subs|
    {
      if subs == {} {
        assert Indices(subs) == {};
      } else {
        var s :| s in subs;
        IndicesSize(subs - {s});
        assert Indices(subs) == Indices(subs - {s}) + {s.index};
        assert s.index !in Indices(subs - {s});
      }
    }

    constructor (cfg: HubCore.Config)
      ensures this.cfg == cfg && Valid() && Abs() == HubCore.Empty && wg == 0 && nextID == 0
      ensures allChans == [] && allTimers == [] && allSubs == []
    {
      this.cfg := cfg;
      closed, channels, total, wg, nextID := false, map[], 0, 0, 0;
      allChans, allTimers, allSubs := [], [], [];
    }

    /** Its two goroutines are counted before anybody else can take the mutex. */
    method StartChannel(id: string) returns (ch: Channel)
      requires Valid() && id !in channels
      modifies this`channels, this`allChans, this`wg
      ensures Valid() && fresh(ch) && allChans == old(allChans) + [ch] && KnownChan(ch) && wg == old(wg) + 2
      ensures channels == old(channels)[id := ch] && ch.id == id && ch.subs == {} && ch.teardown == null
      ensures Abs() == HubCore.StartChannel(old(Abs()), id)
    {
      ch := Create(id);
      AddWorkers();
      IndexWith(channels, id, ch);
      Enroll(channels[id := ch]);
    }

    method AddWorkers()
      requires Valid()
      modifies this`wg
      ensures Valid() && Abs() == old(Abs()) && wg == old(wg) + 2
    {
      wg := wg + 2;
      forall i | 0 <= i < |allChans| ensures ChanValid(allChans[i]) {
        assert old(ChanValid(allChans[i]));
      }
      assert Abs().chans == old(Abs()).chans;
      assert Abs().timers == old(Abs()).timers;
      assert Abs().subs == old(Abs()).subs;
    }

    method Create(id: string) returns (ch: Channel)
      requires Valid()
      modifies this`allChans
      ensures Valid() && fresh(ch) && allChans == old(allChans) + [ch] && KnownChan(ch)
      ensures ch.id == id && ch.subs == {} && ch.teardown == null
      ensures Abs() == old(Abs()).(chans := old(Abs()).chans + [HubCore.Chan(id, {}, None, false, 0)])
    {
      ch := new Channel(id, |allChans|);
      allChans := allChans + [ch];
      ghost var want := old(Abs()).(chans := old(Abs()).chans + [HubCore.Chan(id, {}, None, false, 0)]);
      forall i | 0 <= i < |old(allChans)| ensures ChanValid(allChans[i]) && AbsChan(allChans[i]) == want.chans[i] {
        assert old(ChanValid(allChans[i]));
      }
      assert AbsChan(ch) == want.chans[ch.index];
      assert Abs().chans == want.chans;
      assert Abs().timers == want.timers;
      assert Abs().subs == want.subs;
    }

    /** Replaces the table of registered channels. */
    method Enroll(table: map<string, Channel>)
      requires Valid() && forall id <- table :: KnownChan(table[id]) && table[id].id == id
      modifies this`channels
      ensures Valid() && channels == table
      ensures Abs() == old(Abs()).(channels := Index(table))
    {
      channels := table;
      forall i | 0 <= i < |allChans| ensures ChanValid(allChans[i]) {
        assert old(ChanValid(allChans[i]));
      }
      assert Abs().chans == old(Abs()).chans;
      assert Abs().timers == old(Abs()).timers;
      assert Abs().subs == old(Abs()).subs;
    }

    method Subscribe(id: string) returns (r: Result<Subscription, HubCore.SubscribeAnswer>)
      requires Valid()
      modifies this`channels, this`allChans, this`wg, this`total, this`allSubs, allChans, allTimers
      ensures Valid() && old(Abs()).InRange()
      ensures Abs() == HubCore.Subscribe(cfg, old(Abs()), id).0
      ensures Gives(r, HubCore.Subscribe(cfg, old(Abs()), id).1) && (r.Ok? ==> fresh(r.value))
      ensures wg == old(wg) + if r.Ok? && id !in old(channels) then 2 else 0
      ensures r == Err(HubCore.ErrClosed) <==> old(closed)
      ensures r == Err(HubCore.ErrTooManySubscribers) <==>
              !old(closed)
                  && (old(total) >= cfg.maxTotal || (id in old(channels) && old(Occupancy(id)) >= cfg.maxPerChannel))
      ensures r.Err? ==> r.error in {HubCore.ErrClosed, HubCore.ErrTooManySubscribers} && Abs() == old(Abs())
      ensures r.Ok? ==> total == old(total) + 1 && Joined(id, r.value, old(Members(id)))
    {
      AbsInRange();
      if closed {
        return Err(HubCore.ErrClosed);
      }
      var known := id in channels;
      if known {
        CountSubscribers(id);
      }
      if total >= cfg.maxTotal || (known && |channels[id].subs| >= cfg.maxPerChannel) {
        return Err(HubCore.ErrTooManySubscribers);
      }
      ghost var granted := HubCore.Subscribe(cfg, Abs(), id);
      GrantedIs(cfg, Abs(), id);
      var sub := Admit(id);
      assert (Abs(), HubCore.Subscribed(sub.index)) == granted;
      return Ok(sub);
    }

    /** Who is subscribed under id. */
    ghost function Members(id: string): set<Subscription>
      reads this, if id in channels then {channels[id]} else {}
    {
      if id in channels then channels[id].subs else {}
    }

    ghost function Occupancy(id: string): nat
      reads this, if id in channels then {channels[id]} else {}
    {
      |Members(id)|
    }

    /** sub now belongs to the channel registered under id, beside others, and no teardown is pending there. */
    ghost predicate Joined(id: string, sub: Subscription, others: set<Subscription>)
      reads this, if id in channels then {channels[id]} else {}
    {
      && id in channels && channels[id].id == id && sub.ch == channels[id]
      && sub !in others && channels[id].subs == others + {sub}
      && channels[id].teardown == null
    }

    /** r is the hub's answer: an error, or a subscription with an empty open queue. */
    ghost predicate Gives(r: Result<Subscription, HubCore.SubscribeAnswer>, answer: HubCore.SubscribeAnswer)
      reads this, if r.Ok? then {r.value} else {}
    {
      match answer
      case Subscribed(x) => r.Ok? && KnownSub(r.value) && r.value.index == x && r.value.queue == [] && !r.value.closed
      case why => r == Err(why)
    }

    lemma CountSubscribers(id: string)
      requires Valid() && id in channels
      ensures Abs().InRange() && id in Abs().channels
      ensures |Abs().chans[Abs().channels[id]].subs| == |channels[id].subs|
    {
      AbsInRange();
      assert ChanValid(channels[id]);
      IndicesSize(channels[id].subs);
    }

    static lemma GrantedIs(cfg: HubCore.Config, s: HubCore.Core, id: string)
      requires s.InRange() && HubCore.Refusal(cfg, s, id) == None
      ensures var s1 := WithChannel(s, id);
              && s1.InRange() && id in s1.channels
              && HubCore.Subscribe(cfg, s, id) == (HubCore.Attach(s1, s1.channels[id]), HubCore.Subscribed(|s.subs|))
    {
      HubCore.StartChannelInRange(s, id);
    }

    /** The channel that a new subscription of id joins, as a value. */
    static ghost function WithChannel(s: HubCore.Core, id: string): HubCore.Core {
      if id in s.channels then s else HubCore.StartChannel(s, id)
    }

    method Admit(id: string) returns (sub: Subscription)
      requires Valid()
      modifies this`channels, this`allChans, this`wg, this`total, this`allSubs, allChans, allTimers
      ensures Valid() && old(Abs()).InRange()
      ensures var s1 := WithChannel(old(Abs()), id);
              && s1.InRange() && id in s1.channels && Abs() == HubCore.Attach(s1, s1.channels[id])
      ensures fresh(sub) && sub.index == |old(allSubs)| && KnownSub(sub) && sub.queue == [] && !sub.closed
      ensures wg == old(wg) + if id !in old(channels) then 2 else 0
      ensures total == old(total) + 1 && Joined(id, sub, old(Members(id)))
    {
      AbsInRange();
      HubCore.StartChannelInRange(Abs(), id);
      var ch: Channel;
      if id in channels {
        ch := channels[id];
      } else {
        ch := StartChannel(id);
      }
      sub := Join(ch);
    }

    method Join(ch: Channel) returns (sub: Subscription)
      requires Valid() && KnownChan(ch)
      modifies this`total, this`allSubs, ch, allTimers
      ensures Valid() && old(Abs()).InRange() && Abs() == HubCore.Attach(old(Abs()), ch.index)
      ensures fresh(sub) && sub.index == |old(allSubs)| && KnownSub(sub) && sub.queue == [] && !sub.closed
              && sub.ch == ch
      ensures total == old(total) + 1 && ch.subs == old(ch.subs) + {sub} && ch.teardown == null
    {
      AbsInRange();
      HubCore.AttachInTwo(Abs(), ch.index);
      CancelTeardown(ch);
      sub := AddSubscriber(ch);
    }

    method CancelTeardown(ch: Channel)
      requires Valid() && KnownChan(ch)
      modifies ch`teardown, allTimers
      ensures Valid() && old(Abs()).TeardownInRange(ch.index) && Abs() == HubCore.CancelTeardown(old(Abs()), ch.index)
      ensures ch.teardown == null
    {
      assert ChanValid(ch);
      if ch.teardown != null {
        ch.teardown.Stop();
        ch.teardown := null;
      }
      ghost var want := HubCore.CancelTeardown(old(Abs()), ch.index);
      forall i | 0 <= i < |allChans| ensures ChanValid(allChans[i]) && AbsChan(allChans[i]) == want.chans[i] {
        assert old(ChanValid(allChans[i]));
      }
      assert Abs().chans == want.chans;
      assert Abs().timers == want.timers;
      assert Abs().subs == want.subs;
    }

    method AddSubscriber(ch: Channel) returns (sub: Subscription)
      requires Valid() && KnownChan(ch)
      modifies this`total, this`allSubs, ch`subs
      ensures Valid() && Abs() == HubCore.AddSubscriber(old(Abs()), ch.index)
      ensures total == old(total) + 1 && ch.subs == old(ch.subs) + {sub}
      ensures fresh(sub) && sub.index == |old(allSubs)| && KnownSub(sub) && sub.queue == [] && !sub.closed
              && sub.ch == ch
    {
      sub := new Subscription(ch, |allSubs|);
      Count(sub);
      ch.subs := ch.subs + {sub};
      ghost var want := HubCore.AddSubscriber(old(Abs()), ch.index);
      assert Indices(ch.subs) == Indices(old(ch.subs)) + {sub.index};
      forall i | 0 <= i < |allChans| ensures ChanValid(allChans[i]) && AbsChan(allChans[i]) == want.chans[i] {
        assert old(ChanValid(allChans[i]));
      }
      assert Abs() == want by {
        assert Abs().chans == want.chans;
        assert Abs().timers == want.timers;
        assert Abs().subs == want.subs;
      }
    }

    /** One more subscription, which is nobody's yet. */
    method Count(sub: Subscription)
      requires Valid() && sub.index == |allSubs| && KnownChan(sub.ch)
      modifies this`total, this`allSubs
      ensures Valid() && total == old(total) + 1 && allSubs == old(allSubs) + [sub]
    {
      total := total + 1;
      allSubs := allSubs + [sub];
      forall i | 0 <= i < |allChans| ensures ChanValid(allChans[i]) {
        assert old(ChanValid(allChans[i]));
      }
    }

    method Unsubscribe(sub: Subscription)
      requires Valid() && KnownSub(sub)
      modifies this`total, this`allTimers, sub.ch
      ensures Valid() && old(Abs()).InRange() && Abs() == HubCore.Unsubscribe(old(Abs()), sub.index)
      ensures old(sub !in sub.ch.subs) ==> Abs() == old(Abs())
      ensures old(sub in sub.ch.subs) ==> total == old(total) - 1 && sub.ch.subs == old(sub.ch.subs) - {sub}
      ensures var ch := sub.ch;
              if old(sub in ch.subs) && ch.subs == {} && !closed then
                ch.teardown != null && fresh(ch.teardown) && ch.teardown.phase == HubCore.Armed
              else ch.teardown == old(ch.teardown)
    {
      AbsInRange();
      var ch := sub.ch;
      SameIndex(ch, sub);
      if sub !in ch.subs {
        return;
      }
      HubCore.UnsubscribeInTwo(Abs(), sub.index);
      Leave(sub);
      IndicesSize(ch.subs);
      if ch.subs == {} && !closed {
        Arm(ch);
      }
    }

    method Leave(sub: Subscription)
      requires Valid() && KnownSub(sub) && sub in sub.ch.subs
      modifies this`total, sub.ch`subs
      ensures Valid() && old(Abs()).InRange() && Abs() == HubCore.Leave(old(Abs()), sub.index)
      ensures total == old(total) - 1 && sub.ch.subs == old(sub.ch.subs) - {sub}
      ensures forall s <- sub.ch.subs :: KnownSub(s)
    {
      AbsInRange();
      var ch := sub.ch;
      assert ChanValid(ch);
      ch.subs := ch.subs - {sub};
      total := total - 1;
      ghost var want := HubCore.Leave(old(Abs()), sub.index);
      assert Indices(ch.subs) == Indices(old(ch.subs)) - {sub.index};
      forall i | 0 <= i < |allChans| ensures ChanValid(allChans[i]) && AbsChan(allChans[i]) == want.chans[i] {
        assert old(ChanValid(allChans[i]));
      }
      assert Abs().chans == want.chans;
      assert Abs().timers == want.timers;
      assert Abs().subs == want.subs;
    }

    /** A subscription is in its channel's set exactly when its number is. */
    lemma SameIndex(ch: Channel, sub: Subscription)
      requires Valid() && KnownChan(ch) && KnownSub(sub)
      ensures sub in ch.subs <==> sub.index in Indices(ch.subs)
    {
    }

    method Arm(ch: Channel)
      requires Valid() && KnownChan(ch)
      modifies this`allTimers, ch`teardown
      ensures Valid() && Abs() == HubCore.ArmTeardown(old(Abs()), ch.index)
      ensures ch.teardown != null && fresh(ch.teardown) && ch.teardown.phase == HubCore.Armed
    {
      var t := new Timer(ch, |allTimers|);
      ch.teardown := t;
      allTimers := allTimers + [t];
      ghost var want := HubCore.ArmTeardown(old(Abs()), ch.index);
      forall i | 0 <= i < |allChans| ensures ChanValid(allChans[i]) && AbsChan(allChans[i]) == want.chans[i] {
        assert old(ChanValid(allChans[i]));
      }
      assert Abs().chans == want.chans;
      assert Abs().timers == want.timers;
      assert Abs().subs == want.subs;
    }

    /** The timer's callback, once it has the mutex. */
    method Teardown(t: Timer)
      requires Valid() && KnownTimer(t) && t.phase == HubCore.Fired
      modifies this`channels, t, t.ch
      ensures Valid() && old(Abs()).InRange() && Abs() == HubCore.TimerRuns(old(Abs()), t.index)
      ensures var ch := t.ch;
              if old(ch.subs == {} && ch.id in channels && channels[ch.id] == ch) then
                channels == old(channels) - {ch.id} && ch.cancelled
              else channels == old(channels) && ch.cancelled == old(ch.cancelled)
    {
      AbsInRange();
      HubCore.TimerRunsInTwo(Abs(), t.index);
      var ch := t.ch;
      t.phase := HubCore.Done;
      assert Valid();
      assert Abs() == HubCore.Expire(old(Abs()), t.index) by {
        assert Abs().timers == HubCore.Expire(old(Abs()), t.index).timers;
        assert Abs().chans == old(Abs()).chans;
      }
      assert ChanValid(ch);
      IndicesSize(ch.subs);
      if ch.subs == {} && ch.id in channels && channels[ch.id] == ch {
        Deregister(ch);
      }
    }

    method Deregister(ch: Channel)
      requires Valid() && KnownChan(ch)
      modifies this`channels, ch`cancelled, ch`teardowns
      ensures Valid() && Abs() == HubCore.Deregister(old(Abs()), ch.index)
      ensures channels == old(channels) - {ch.id} && ch.cancelled
    {
      Cancel(ch);
      IndexWithout(channels, ch.id);
      Enroll(channels - {ch.id});
    }

    /** Cancels the context of the channel's workers. */
    method Cancel(ch: Channel)
      requires Valid() && KnownChan(ch)
      modifies ch`cancelled, ch`teardowns
      ensures Valid() && Abs() == old(Abs()).(chans := HubCore.Deregister(old(Abs()), ch.index).chans)
      ensures ch.cancelled
    {
      ch.cancelled := true;
      ch.teardowns := ch.teardowns + 1;
      ghost var want := HubCore.Deregister(old(Abs()), ch.index);
      forall i | 0 <= i < |allChans| ensures ChanValid(allChans[i]) && AbsChan(allChans[i]) == want.chans[i] {
        assert old(ChanValid(allChans[i]));
      }
      assert Abs().chans == want.chans;
      assert Abs().timers == old(Abs()).timers;
      assert Abs().subs == old(Abs()).subs;
    }

    /** Whether a message could be queued, as if it came from Chzzk. */
    method Inject(id: string, m: ChatMessage) returns (ok: bool)
      requires Valid()
      modifies if id in channels then {channels[id]} else {}
      ensures ok <==> id in channels
      ensures ok ==> channels[id].buffer == old(channels[id].buffer) + [m]
      ensures Abs() == old(Abs()) && Valid()
    {
      ok := id in channels;
      if ok {
        channels[id].Push(m);
        forall i | 0 <= i < |allChans|
          ensures ChanValid(allChans[i]) && AbsChan(allChans[i]) == old(AbsChan(allChans[i]))
        {
          assert old(ChanValid(allChans[i]));
        }
        assert Abs().chans == old(Abs()).chans;
      }
    }

    /** The members of a set of subscriptions in whatever order the runtime visits them. */
    method List(subs: set<Subscription>) returns (r: seq<Subscription>)
      ensures forall s :: s in r <==> s in subs
      ensures forall i, j :: 0 <= i < j < |r| ==> r[i] != r[j]
    {
      r := [];
      var left := subs;
      while left != {}
        invariant left <= subs
        invariant forall s :: s in r <==> s in subs - left
        invariant forall i, j :: 0 <= i < j < |r| ==> r[i] != r[j]
      {
        var s :| s in left;
        assert forall t :: t in r + [s] <==> t in r || t == s;
        r := r + [s];
        left := left - {s};
      }
    }

    /** A snapshot of the channel's subscribers. */
    method Subscribers(ch: Channel) returns (r: seq<Subscription>)
      ensures forall s :: s in r <==> s in ch.subs
      ensures forall i, j :: 0 <= i < j < |r| ==> r[i] != r[j]
    {
      r := List(ch.subs);
    }

    /** asked lists exactly the senders in the memo, each once. */
    static ghost predicate AskedOnce(asked: seq<string>, seen: map<string, Resolution>) {
      && (forall sender :: sender in asked <==> sender in seen)
      && (forall i, j :: 0 <= i < j < |asked| ==> asked[i] != asked[j])
    }

    /** The memoised resolver call for message i; asked lists the calls so far. */
    method Ask(resolve: (nat, string) -> Option<Resolution>, i: nat, sender: string,
               seen: map<string, Resolution>, asked: seq<string>)
      returns (res: Resolution, seen': map<string, Resolution>, asked': seq<string>)
      ensures res == Lookup(seen, sender, resolve(i, sender)) && seen' == seen[sender := res]
      requires AskedOnce(asked, seen)
      ensures AskedOnce(asked', seen')
    {
      seen', asked' := seen, asked;
      if sender in seen {
        res := seen[sender];
      } else {
        res := Degrade(resolve(i, sender));
        asked' := asked + [sender];
        seen' := seen[sender := res];
      }
    }

    /** Each sender is asked once, at its first message; later ones reuse the answer. */
    method BuildBatch(raw: seq<ChatMessage>, resolve: (nat, string) -> Option<Resolution>)
      returns (msgs: seq<BatchMessage>, asked: seq<string>)
      modifies this`nextID
      ensures FieldsOk(raw, resolve, old(nextID), msgs) && nextID == old(nextID) + |msgs|
      ensures forall i, j :: 0 <= i < j < |asked| ==> asked[i] != asked[j]
      ensures forall sender :: sender in asked <==> Spoke(raw, |msgs|, sender)
    {
      msgs, asked := BuildLines(raw, resolve);
      BatchFields(raw, resolve, old(nextID), msgs);
    }

    /** The loop. */
    method BuildLines(raw: seq<ChatMessage>, resolve: (nat, string) -> Option<Resolution>)
      returns (msgs: seq<BatchMessage>, asked: seq<string>)
      modifies this`nextID
      ensures IsBatch(raw, resolve, old(nextID), msgs) && nextID == old(nextID) + |msgs|
      ensures forall i, j :: 0 <= i < j < |asked| ==> asked[i] != asked[j]
      ensures forall sender :: sender in asked <==> Spoke(raw, |Cut(raw)|, sender)
    {
      var seen: map<string, Resolution> := map[];
      msgs, asked := [], [];
      for i := 0 to |Cut(raw)|
        invariant nextID == old(nextID) + i
        invariant BuiltSoFar(raw, resolve, old(nextID), i, seen, msgs)
        invariant AskedOnce(asked, seen)
      {
        BuildStep(raw, resolve, old(nextID), i, seen, msgs);
        var res: Resolution;
        res, seen, asked := Ask(resolve, i, raw[i].sender, seen, asked);
        nextID := nextID + 1;
        msgs := msgs + [Line(nextID, raw[i], res)];
      }
      MemoKnowsSpeakers(raw, resolve, |Cut(raw)|, seen);
    }

    static ghost predicate BuiltSoFar(raw: seq<ChatMessage>, resolve: (nat, string) -> Option<Resolution>, last: int,
        i: nat,
                                      seen: map<string, Resolution>, msgs: seq<BatchMessage>)
    {
      |msgs| == i && ShownSoFar(raw, resolve, last, msgs) && Memo(raw, resolve, i, seen)
    }

    static lemma BuildStep(raw: seq<ChatMessage>, resolve: (nat, string) -> Option<Resolution>, last: int, i: nat,
                           seen: map<string, Resolution>, msgs: seq<BatchMessage>)
      requires i < |raw| && BuiltSoFar(raw, resolve, last, i, seen, msgs)
      ensures var res := Lookup(seen, raw[i].sender, resolve(i, raw[i].sender));
              BuiltSoFar(raw, resolve, last, i + 1,
                         seen[raw[i].sender := res], msgs + [Line(last + i + 1, raw[i], res)])
    {
      LookupIsShown(raw, resolve, i, seen);
      MemoStep(raw, resolve, i, seen);
      ShownStep(raw, resolve, last, msgs);
    }

    /** The non-blocking sends of one flush: a full queue misses the batch, the others get it. */
    method SendAll(subs: seq<Subscription>, data: seq<BatchMessage>)
      requires forall i, j :: 0 <= i < j < |subs| ==> subs[i] != subs[j]
      requires forall s <- subs :: !s.closed
      modifies subs`queue
      ensures forall s <- subs :: s.queue == old(s.queue) + if |old(s.queue)| < 64 then [data] else []
    {
      for i := 0 to |subs|
        invariant forall j :: 0 <= j < i ==>
                    subs[j].queue == old(subs[j].queue) + if |old(subs[j].queue)| < 64 then [data] else []
        invariant forall j :: i <= j < |subs| ==> subs[j].queue == old(subs[j].queue)
      {
        var s := subs[i];
        if |s.queue| < SUBSCRIBER_BUFFER {
          s.queue := s.queue + [data];
        }
      }
    }

    /**
     * One tick of the flush loop, if nobody else takes a step meanwhile; encodes says whether the batch
     * becomes JSON.
     */
    method FlushOnce(ch: Channel, resolve: (nat, string) -> Option<Resolution>, encodes: bool)
      returns (msgs: seq<BatchMessage>)
      requires forall s <- ch.subs :: !s.closed
      modifies this`nextID, ch`buffer, ch.subs
      ensures ch.buffer == []
      ensures old(ch.buffer) == [] || ch.subs == {} ==> msgs == [] && nextID == old(nextID)
      ensures old(ch.buffer) != [] && ch.subs != {} ==>
                FieldsOk(old(ch.buffer), resolve, old(nextID), msgs) && nextID == old(nextID) + |msgs|
      ensures forall s <- ch.subs ::
                s.queue ==
                old(s.queue) + if old(ch.buffer) != [] && encodes && |old(s.queue)| < 64 then [msgs] else []
    {
      msgs := [];
      var raw := ch.Drain();
      if raw == [] {
        return;
      }
      var subs := Subscribers(ch);
      if subs == [] {
        assert forall s <- ch.subs :: s in subs;
        return;
      }
      assert subs[0] in ch.subs;
      var asked;
      msgs, asked := BuildBatch(raw, resolve);
      if !encodes {
        return;
      }
      SendAll(subs, msgs);
    }

    // ----- Close -----

    lemma AbsWired()
      requires Valid()
      ensures Abs().InRange() && HubCore.Wired(Abs())
    {
    }

    static function Set(subs: seq<Subscription>): set<Subscription> {
      set s | s in subs
    }

    /** The critical section of Close: it stops the timers, empties the channels and lists who was subscribed. */
    method CloseLocks() returns (taken: seq<Subscription>)
      requires Valid()
      modifies this`closed, this`channels, this`total, allChans, allTimers
      ensures Valid() && old(Abs()).InRange()
      ensures (Abs(), Indices(Set(taken))) == HubCore.CloseLocked(old(Abs()))
      ensures forall s <- taken :: KnownSub(s)
      ensures forall i, j :: 0 <= i < j < |taken| ==> taken[i] != taken[j]
    {
      AbsWired();
      taken := [];
      assert Set(taken) == {} && Indices(Set(taken)) == {};
      if closed {
        return;
      }
      ghost var before := Abs();
      HubCore.CloseInSteps(before);
      var todo := channels.Keys;
      assert channels.Keys - todo == {};
      while todo != {}
        invariant todo <= channels.Keys && unchanged(this)
        invariant Partway(before, channels.Keys - todo, taken)
      {
        var id :| id in todo;
        assert channels.Keys - (todo - {id}) == (channels.Keys - todo) + {id};
        taken := CloseNext(id, taken, before, channels.Keys - todo);
        todo := todo - {id};
      }
      assert channels.Keys - todo == before.channels.Keys;
      Forget();
    }

    /** Close has dealt with the channels under done, and taken lists their subscribers. */
    ghost predicate Partway(before: HubCore.Core, done: set<string>, taken: seq<Subscription>)
      reads this, allChans, allTimers
    {
      && Valid() && before.InRange() && HubCore.Wired(before)
      && Abs() == HubCore.CloseSome(before, done)
      && Indices(Set(taken)) == HubCore.TakenFrom(before, done)
      && (forall s <- taken :: KnownSub(s))
      && (forall i, j :: 0 <= i < j < |taken| ==> taken[i] != taken[j])
    }

    method CloseNext(id: string, taken: seq<Subscription>, ghost before: HubCore.Core, ghost done: set<string>)
      returns (taken': seq<Subscription>)
      requires id in channels && id !in done && Partway(before, done, taken)
      modifies allChans, allTimers
      ensures Partway(before, done + {id}, taken')
    {
      assert before.channels == Abs().channels && before.channels[id] == channels[id].index;
      HubCore.CloseSomeStep(before, done, id);
      HubCore.TakenFromStep(before, done, id);
      var more := CloseChannel(channels[id]);
      IndicesOfBoth(taken, more);
      assert Indices(Set(taken)) !! Indices(Set(more));
      taken' := taken + more;
    }

    lemma IndicesOfBoth(a: seq<Subscription>, b: seq<Subscription>)
      ensures Indices(Set(a + b)) == Indices(Set(a)) + Indices(Set(b))
      ensures Indices(Set(a)) !! Indices(Set(b)) ==> forall i, j :: 0 <= i < |a| && 0 <= j < |b| ==> a[i] != b[j]
    {
      assert Set(a + b) == Set(a) + Set(b);
      forall i, j | 0 <= i < |a| && 0 <= j < |b|
        ensures a[i].index in Indices(Set(a)) && b[j].index in Indices(Set(b))
      {
        assert a[i] in Set(a) && b[j] in Set(b);
      }
    }

    method Forget()
      requires Valid()
      modifies this`closed, this`channels, this`total
      ensures Valid() && Abs() == old(Abs()).(closed := true, channels := map[], total := 0)
    {
      channels := map[];
      total := 0;
      closed := true;
      ghost var want := old(Abs());
      forall i | 0 <= i < |allChans| ensures ChanValid(allChans[i]) {
        assert old(ChanValid(allChans[i]));
      }
      assert Abs().chans == want.chans;
      assert Abs().timers == want.timers;
      assert Abs().subs == want.subs;
    }

    method CloseChannel(ch: Channel) returns (subs: seq<Subscription>)
      requires Valid() && KnownChan(ch)
      modifies ch`subs, ch.teardown
      ensures Valid() && old(Abs()).TeardownInRange(ch.index) && Abs() == HubCore.CloseOne(old(Abs()), ch.index)
      ensures Indices(Set(subs)) == old(Abs()).chans[ch.index].subs
      ensures forall s <- subs :: KnownSub(s)
      ensures forall i, j :: 0 <= i < j < |subs| ==> subs[i] != subs[j]
    {
      assert ChanValid(ch);
      StopTeardown(ch);
      subs := List(ch.subs);
      assert Set(subs) == ch.subs;
      Empty(ch);
    }

    method StopTeardown(ch: Channel)
      requires Valid() && KnownChan(ch)
      modifies ch.teardown
      ensures Valid() && old(Abs()).TeardownInRange(ch.index)
      ensures var t := old(Abs()).chans[ch.index].teardown;
              Abs() ==
              if t.None? then old(Abs()) else old(Abs()).(timers := HubCore.StopTimer(old(Abs()).timers, t.value))
    {
      assert ChanValid(ch);
      if ch.teardown != null {
        ch.teardown.Stop();
        assert Abs().timers == HubCore.StopTimer(old(Abs()).timers, ch.teardown.index);
      }
      forall i | 0 <= i < |allChans| ensures ChanValid(allChans[i]) {
        assert old(ChanValid(allChans[i]));
      }
      assert Abs().chans == old(Abs()).chans;
      assert Abs().subs == old(Abs()).subs;
    }

    method Empty(ch: Channel)
      requires Valid() && KnownChan(ch)
      modifies ch`subs
      ensures Valid() && ch.subs == {}
      ensures Abs() == old(Abs()).(chans := old(Abs()).chans[ch.index := old(Abs()).chans[ch.index].(subs := {})])
    {
      ch.subs := {};
      ghost var want := old(Abs()).chans[ch.index := old(Abs()).chans[ch.index].(subs := {})];
      forall i | 0 <= i < |allChans| ensures ChanValid(allChans[i]) && AbsChan(allChans[i]) == want[i] {
        assert old(ChanValid(allChans[i]));
      }
      assert Abs().chans == want;
      assert Abs().timers == old(Abs()).timers;
      assert Abs().subs == old(Abs()).subs;
    }

    /** The last phase of Close, after every worker is gone. */
    method CloseQueues(taken: seq<Subscription>)
      requires forall i, j :: 0 <= i < j < |taken| ==> taken[i] != taken[j]
      requires forall s <- taken :: !s.closed
      modifies taken`closed
      ensures forall s <- taken :: s.closed && s.queue == old(s.queue)
    {
      for i := 0 to |taken|
        invariant forall j :: 0 <= j < |taken| ==> (taken[j].closed <==> j < i)
      {
        assert !taken[i].closed;
        taken[i].closed := true;
      }
    }
  }
}

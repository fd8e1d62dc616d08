/**
 * The hub under every interleaving (internal/realtime/hub.go): widgets, timers, workers and Close
 * take steps in any order, one step per critical section, channel operation or atomic counter
 * operation. Worker c belongs to channel c, queue x to subscription x.
 */
module HubSystem {
  import opened Wrappers
  import opened HubCore
  import opened Batch
  import opened ResolverTypes

  /** The message with id n is issued[n - 1]: its channel, the flush that built it, its place in that batch. */
  datatype Origin = Origin(ch: nat, flush: nat, offset: nat)

  datatype Payload = Payload(flush: nat, msgs: seq<BatchMessage>)

  /** Where the flush goroutine of a channel is. */
  datatype Flusher =
    | Idle
    | Drained
    | Building(snap: seq<nat>, seen: map<string, Resolution>, msgs: seq<BatchMessage>)
    | Sending(snap: seq<nat>, msgs: seq<BatchMessage>, sent: nat)
    | Gone

  /** What became of one drained batch. */
  datatype Fate = Pending | NoSubscribers | NotEncoded | FannedOut(snap: seq<nat>)

  /** pushed, drained and fates record the channel's history. */
  datatype Worker = Worker(
    ingesting: bool,
    flusher: Flusher,
    buffer: seq<ChatMessage>,
    pushed: seq<ChatMessage>,
    drained: seq<seq<ChatMessage>>,
    fates: seq<Fate>)
  {
    predicate InFlight() {
      flusher.Drained? || flusher.Building? || flusher.Sending?
    }

    predicate Shaped() {
      && |fates| == |drained|
      && (InFlight() ==> drained != [])
      && (flusher.Building? ==> flusher.snap != [] && |flusher.msgs| <= |Cut(Raw())|)
      && (flusher.Sending? ==> flusher.sent < |flusher.snap|)
    }

    /** The batch of the flush in progress. */
    function Raw(): seq<ChatMessage>
      requires drained != []
    {
      drained[|drained| - 1]
    }
  }

  datatype Drop = Drop(flush: nat, backlog: nat)

  /** accepted, dropped and left record history; left: unsubscribed while the hub was open. */
  datatype Queue = Queue(items: seq<Payload>, closed: bool, accepted: seq<Payload>, dropped: seq<Drop>, left: bool)

  /** Close between its phases. taken are the subscriptions it found; left are those still to be closed. */
  datatype Closer =
    | NotClosing
    | Cancelling(taken: set<nat>)
    | Waiting(taken: set<nat>)
    | ClosingQueues(taken: set<nat>, left: set<nat>)

  datatype Sys = Sys(
    core: Core,
    workers: seq<Worker>,
    queues: seq<Queue>,
    wg: int,
    cancelled: bool,
    closer: Closer,
    issued: seq<Origin>,
    panicked: bool)
  {
    /** Every index that a step follows is in range. */
    ghost predicate Shaped() {
      && core.InRange()
      && |workers| == |core.chans|
      && |queues| == |core.subs|
      && (forall c :: 0 <= c < |workers| ==> workers[c].Shaped())
      && (forall c :: 0 <= c < |workers| ==> SnapshotInRange(c))
      && (closer.ClosingQueues? ==> forall x <- closer.left :: x < |queues|)
    }

    ghost predicate SnapshotInRange(c: nat)
      requires c < |workers|
    {
      var f := workers[c].flusher;
      f.Building? || f.Sending? ==> forall i :: 0 <= i < |f.snap| ==> f.snap[i] < |queues|
    }

    predicate CtxDone(c: nat)
      requires c < |core.chans|
    {
      cancelled || core.chans[c].cancelled
    }
  }

  const NewWorker := Worker(true, Idle, [], [], [], [])
  const NewQueue := Queue([], false, [], [], false)
  const Init := Sys(Empty, [], [], 0, false, NotClosing, [], false)

  datatype Label =
    | Subscribe(id: string)
    | Unsubscribe(sub: nat)
    | TimerFires(timer: nat)
    | TimerRuns(timer: nat)
    | Push(ch: nat, m: ChatMessage)
    | Drain(ch: nat)
    | Snapshot(ch: nat, order: seq<nat>)
    | BuildOne(ch: nat, answer: Option<Resolution>)
    | Encode(ch: nat, ok: bool)
    | SendOne(ch: nat)
    | IngestExits(ch: nat)
    | FlusherExits(ch: nat)
    | Receive(sub: nat)
    | CloseLocks
    | CloseCancels
    | WaitReturns
    | CloseQueue(sub: nat)

  /** order lists the elements of subs, each once; the runtime picks it. */
  predicate IsOrdering(order: seq<nat>, subs: set<nat>) {
    && (forall i :: 0 <= i < |order| ==> order[i] in subs)
    && (forall x <- subs :: x in order)
    && (forall i, j :: 0 <= i < j < |order| ==> order[i] != order[j])
  }

  ghost predicate Enabled(s: Sys, l: Label)
    requires s.Shaped()
  {
    match l
    case Subscribe(_) => true
    case Unsubscribe(x) => x < |s.queues|
    case TimerFires(t) => t < |s.core.timers| && s.core.timers[t].phase == Armed
    case TimerRuns(t) => t < |s.core.timers| && s.core.timers[t].phase == Fired
    case Push(c, _) => c < |s.workers|
    case Drain(c) => c < |s.workers| && s.workers[c].flusher.Idle? && s.workers[c].buffer != []
    case Snapshot(c, order) =>
      c < |s.workers| && s.workers[c].flusher.Drained? && IsOrdering(order, s.core.chans[c].subs)
    case BuildOne(c, _) =>
      c < |s.workers| && s.workers[c].flusher.Building? && |s.workers[c].flusher.msgs| < |Cut(s.workers[c].Raw())|
    case Encode(c, _) =>
      c < |s.workers| && s.workers[c].flusher.Building? && |s.workers[c].flusher.msgs| == |Cut(s.workers[c].Raw())|
    case SendOne(c) => c < |s.workers| && s.workers[c].flusher.Sending?
    case IngestExits(c) => c < |s.workers| && s.workers[c].ingesting && s.CtxDone(c)
    case FlusherExits(c) => c < |s.workers| && s.workers[c].flusher.Idle? && s.CtxDone(c)
    case Receive(x) => x < |s.queues| && s.queues[x].items != []
    case CloseLocks => true
    case CloseCancels => s.closer.Cancelling?
    case WaitReturns => s.closer.Waiting? && s.wg == 0
    case CloseQueue(x) => s.closer.ClosingQueues? && x in s.closer.left
  }

  // ----- One function per step -----

  /** WaitGroup.Add while Wait is running or over is the misuse that the runtime reports by a panic. */
  ghost function DoSubscribe(cfg: Config, s: Sys, id: string): Sys
    requires s.Shaped()
  {
    var (core, answer) := HubCore.Subscribe(cfg, s.core, id);
    var s1 :=
      if |core.chans| > |s.core.chans| then
        s.(workers := s.workers + [NewWorker], wg := s.wg + 2,
           panicked := s.panicked || s.closer.Waiting? || s.closer.ClosingQueues?)
      else s;
    s1.(core := core, queues := if answer.Subscribed? then s.queues + [NewQueue] else s.queues)
  }

  ghost function DoUnsubscribe(s: Sys, x: nat): Sys
    requires s.Shaped() && x < |s.queues|
  {
    s.(core := HubCore.Unsubscribe(s.core, x),
       queues := s.queues[x := s.queues[x].(left := s.queues[x].left || !s.core.closed)])
  }

  function Pushed(w: Worker, m: ChatMessage): Worker {
    w.(buffer := w.buffer + [m], pushed := w.pushed + [m])
  }

  function DrainedOnce(w: Worker): Worker {
    w.(flusher := Drained, drained := w.drained + [w.buffer], buffer := [], fates := w.fates + [Pending])
  }

  function Settled(w: Worker, fate: Fate): Worker
    requires w.Shaped() && w.InFlight()
  {
    w.(flusher := Idle, fates := w.fates[|w.fates| - 1 := fate])
  }

  function Snapshotted(w: Worker, order: seq<nat>): Worker
    requires w.Shaped() && w.flusher.Drained?
  {
    if order == [] then Settled(w, NoSubscribers) else w.(flusher := Building(order, map[], []))
  }

  function BuiltOne(w: Worker, id: int, answer: Option<Resolution>): Worker
    requires w.Shaped() && w.flusher.Building? && |w.flusher.msgs| < |Cut(w.Raw())|
  {
    var m := w.Raw()[|w.flusher.msgs|];
    var res := Lookup(w.flusher.seen, m.sender, answer);
    w.(flusher := w.flusher.(seen := w.flusher.seen[m.sender := res], msgs := w.flusher.msgs + [Line(id, m, res)]))
  }

  function Encoded(w: Worker, ok: bool): Worker
    requires w.Shaped() && w.flusher.Building?
  {
    if ok then w.(flusher := Sending(w.flusher.snap, w.flusher.msgs, 0)) else Settled(w, NotEncoded)
  }

  function SentOne(w: Worker): Worker
    requires w.Shaped() && w.flusher.Sending?
  {
    if w.flusher.sent + 1 == |w.flusher.snap| then Settled(w, FannedOut(w.flusher.snap))
    else w.(flusher := w.flusher.(sent := w.flusher.sent + 1))
  }

  /** The non-blocking send: a full queue misses the batch. */
  function Offered(q: Queue, p: Payload): Queue {
    if |q.items| < SUBSCRIBER_BUFFER then q.(items := q.items + [p], accepted := q.accepted + [p])
    else q.(dropped := q.dropped + [Drop(p.flush, |q.items|)])
  }

  ghost function DoSendOne(s: Sys, c: nat): Sys
    requires s.Shaped() && c < |s.workers| && s.workers[c].flusher.Sending?
  {
    var w := s.workers[c];
    assert s.SnapshotInRange(c);
    var x := w.flusher.snap[w.flusher.sent];
    var s1 := s.(workers := s.workers[c := SentOne(w)]);
    if s.queues[x].closed then s1.(panicked := true)
    else s1.(queues := s.queues[x := Offered(s.queues[x], Payload(|w.drained| - 1, w.flusher.msgs))])
  }

  ghost function DoCloseLocks(s: Sys): Sys
    requires s.Shaped()
  {
    if s.core.closed then s
    else
      var (core, taken) := CloseLocked(s.core);
      s.(core := core, closer := Cancelling(taken))
  }

  ghost function DoCloseQueue(s: Sys, x: nat): Sys
    requires s.Shaped() && s.closer.ClosingQueues? && x in s.closer.left
  {
    var s1 := s.(closer := s.closer.(left := s.closer.left - {x}));
    if s.queues[x].closed then s1.(panicked := true)
    else s1.(queues := s.queues[x := s.queues[x].(closed := true)])
  }

  ghost function Apply(cfg: Config, s: Sys, l: Label): Sys
    requires s.Shaped() && Enabled(s, l)
  {
    match l
    case Subscribe(id) => DoSubscribe(cfg, s, id)
    case Unsubscribe(x) => DoUnsubscribe(s, x)
    case TimerFires(t) => s.(core := HubCore.TimerFires(s.core, t))
    case TimerRuns(t) => s.(core := HubCore.TimerRuns(s.core, t))
    case Push(c, m) => s.(workers := s.workers[c := Pushed(s.workers[c], m)])
    case Drain(c) => s.(workers := s.workers[c := DrainedOnce(s.workers[c])])
    case Snapshot(c, order) => s.(workers := s.workers[c := Snapshotted(s.workers[c], order)])
    case BuildOne(c, answer) =>
      var w := s.workers[c];
      s.(issued := s.issued + [Origin(c, |w.drained| - 1, |w.flusher.msgs|)],
         workers := s.workers[c := BuiltOne(w, |s.issued| + 1, answer)])
    case Encode(c, ok) => s.(workers := s.workers[c := Encoded(s.workers[c], ok)])
    case SendOne(c) => DoSendOne(s, c)
    case IngestExits(c) => s.(workers := s.workers[c := s.workers[c].(ingesting := false)], wg := s.wg - 1)
    case FlusherExits(c) => s.(workers := s.workers[c := s.workers[c].(flusher := Gone)], wg := s.wg - 1)
    case Receive(x) => s.(queues := s.queues[x := s.queues[x].(items := s.queues[x].items[1..])])
    case CloseLocks => DoCloseLocks(s)
    case CloseCancels => s.(cancelled := true, closer := Waiting(s.closer.taken))
    case WaitReturns => s.(closer := ClosingQueues(s.closer.taken, s.closer.taken))
    case CloseQueue(x) => DoCloseQueue(s, x)
  }

  ghost predicate Next(cfg: Config, s: Sys, l: Label, s': Sys) {
    s.Shaped() && Enabled(s, l) && s' == Apply(cfg, s, l)
  }

  /** labels[i] leads from states[i] to states[i + 1]. */
  ghost predicate Path(cfg: Config, states: seq<Sys>, labels: seq<Label>) {
    && |states| == |labels| + 1
    && forall i :: 0 <= i < |labels| ==> Next(cfg, states[i], labels[i], states[i + 1])
  }

  /** A path from a fresh hub. */
  ghost predicate IsRun(cfg: Config, run: seq<Sys>, labels: seq<Label>) {
    Path(cfg, run, labels) && run[0] == Init
  }
}

/**
 * What the lines of a delivered batch say (internal/realtime/hub.go), field by field and over whole
 * runs: each carries its message, under the answer that the resolver gave at the sender's first
 * message of the batch.
 */
module HubContents {
  import opened Wrappers
  import opened Batch
  import opened HubCore
  import opened HubDelivery
  import opened HubSystem
  import HubLosses
  import opened ResolverTypes
  import HubSafety

  /** Step n of the run resolves message f of flush k of channel c, and res is what came of it. */
  ghost predicate AskedAt(run: seq<Sys>, labels: seq<Label>, n: nat, c: nat, k: nat, f: nat, res: Resolution) {
    && n < |labels| && n < |run| && labels[n].BuildOne? && labels[n].ch == c
    && c < |run[n].workers| && run[n].workers[c].flusher.Building?
    && |run[n].workers[c].drained| == k + 1 && |run[n].workers[c].flusher.msgs| == f
    && IsAnswer(res, labels[n].answer)
  }

  ghost predicate Asked(run: seq<Sys>, labels: seq<Label>, m: nat, c: nat, k: nat, f: nat, res: Resolution) {
    exists n: nat :: n < m && AskedAt(run, labels, n, c, k, f, res)
  }

  /** Line j of flush k shows the answer that was given, before step m, at its sender's first message. */
  ghost predicate TracedAt(run: seq<Sys>, labels: seq<Label>, m: nat, c: nat, k: nat, raw: seq<ChatMessage>, j: nat,
      res: Resolution)
  {
    exists f: nat :: FirstBy(raw, f, j) && Asked(run, labels, m, c, k, f, res)
  }

  ghost predicate Traced(run: seq<Sys>, labels: seq<Label>, m: nat, c: nat, k: nat, raw: seq<ChatMessage>,
      msgs: seq<BatchMessage>)
  {
    |msgs| <= |raw| && forall j: nat :: j < |msgs| ==> TracedAt(run, labels, m, c, k, raw, j, msgs[j].result)
  }

  /** The memo knows only senders of lines already built. */
  ghost predicate KnowsSpeakers(raw: seq<ChatMessage>, n: nat, seen: map<string, Resolution>) {
    forall sender <- seen :: Spoke(raw, n, sender)
  }

  ghost predicate WorkerTraced(run: seq<Sys>, labels: seq<Label>, m: nat, w: Worker, c: nat)
    requires w.Shaped()
  {
    && (w.flusher.Building? || w.flusher.Sending? ==>
          Traced(run, labels, m, c, |w.drained| - 1, w.Raw(), w.flusher.msgs))
    && (w.flusher.Building? ==> KnowsSpeakers(w.Raw(), |w.flusher.msgs|, w.flusher.seen))
  }

  ghost predicate QueueTraced(run: seq<Sys>, labels: seq<Label>, m: nat, w: Worker, c: nat, q: Queue) {
    forall p <- q.accepted :: p.flush < |w.drained| && Traced(run, labels, m, c, p.flush, w.drained[p.flush], p.msgs)
  }

  // ----- One step -----

  lemma TracedLater(run: seq<Sys>, labels: seq<Label>, m: nat, c: nat, k: nat, raw: seq<ChatMessage>,
      msgs: seq<BatchMessage>)
    requires Traced(run, labels, m, c, k, raw, msgs)
    ensures Traced(run, labels, m + 1, c, k, raw, msgs)
  {
    forall j: nat | j < |msgs| ensures TracedAt(run, labels, m + 1, c, k, raw, j, msgs[j].result) {
      assert TracedAt(run, labels, m, c, k, raw, j, msgs[j].result);
      var f: nat :| FirstBy(raw, f, j) && Asked(run, labels, m, c, k, f, msgs[j].result);
      var n: nat :| n < m && AskedAt(run, labels, n, c, k, f, msgs[j].result);
      assert Asked(run, labels, m + 1, c, k, f, msgs[j].result);
    }
  }

  /** A sender with a line of its own already is shown as there. */
  lemma RepeatIsTraced(run: seq<Sys>, labels: seq<Label>, m: nat, c: nat, k: nat, raw: seq<ChatMessage>,
      msgs: seq<BatchMessage>, j: nat)
    requires Traced(run, labels, m, c, k, raw, msgs) && |msgs| < |raw|
    requires j < |msgs| && raw[j].sender == raw[|msgs|].sender
    ensures TracedAt(run, labels, m, c, k, raw, |msgs|, msgs[j].result)
  {
    assert TracedAt(run, labels, m, c, k, raw, j, msgs[j].result);
    var f: nat :| FirstBy(raw, f, j) && Asked(run, labels, m, c, k, f, msgs[j].result);
    assert FirstBy(raw, f, |msgs|);
  }

  /** The line that a BuildOne adds. */
  lemma NewLineIsTraced(run: seq<Sys>, labels: seq<Label>, m: nat, w: Worker, c: nat)
    requires m < |run| && m < |labels| && labels[m].BuildOne? && labels[m].ch == c
    requires c < |run[m].workers| && w == run[m].workers[c] && w.Shaped() && w.flusher.Building?
    requires |w.flusher.msgs| < |Cut(w.Raw())| && Remembered(w.Raw(), w.flusher.msgs, w.flusher.seen)
    requires WorkerTraced(run, labels, m, w, c)
    ensures var res := Lookup(w.flusher.seen, w.Raw()[|w.flusher.msgs|].sender, labels[m].answer);
            TracedAt(run, labels, m + 1, c, |w.drained| - 1, w.Raw(), |w.flusher.msgs|, res)
  {
    var raw, k, j := w.Raw(), |w.drained| - 1, |w.flusher.msgs|;
    var sender := raw[j].sender;
    var res := Lookup(w.flusher.seen, sender, labels[m].answer);
    TracedLater(run, labels, m, c, k, raw, w.flusher.msgs);
    if sender in w.flusher.seen {
      assert Spoke(raw, j, sender);
      var i: nat :| i < j && raw[i].sender == sender;
      RepeatIsTraced(run, labels, m + 1, c, k, raw, w.flusher.msgs, i);
    } else {
      assert FirstBy(raw, j, j);
      assert AskedAt(run, labels, m, c, k, j, res);
      assert Asked(run, labels, m + 1, c, k, j, res);
    }
  }

  lemma SpeakersGrow(raw: seq<ChatMessage>, n: nat, seen: map<string, Resolution>, res: Resolution)
    requires KnowsSpeakers(raw, n, seen) && n < |raw|
    ensures KnowsSpeakers(raw, n + 1, seen[raw[n].sender := res])
  {
    var seen', n' := seen[raw[n].sender := res], n + 1;
    forall sender <- seen' ensures Spoke(raw, n', sender) {
      if sender == raw[n].sender {
        assert raw[n].sender == sender;
      } else {
        assert Spoke(raw, n, sender);
        var i: nat :| i < n && raw[i].sender == sender;
      }
    }
  }

  lemma OneMoreTraced(run: seq<Sys>, labels: seq<Label>, m: nat, c: nat, k: nat, raw: seq<ChatMessage>,
      msgs: seq<BatchMessage>, b: BatchMessage)
    requires Traced(run, labels, m, c, k, raw, msgs) && |msgs| < |raw|
    requires TracedAt(run, labels, m, c, k, raw, |msgs|, b.result)
    ensures Traced(run, labels, m, c, k, raw, msgs + [b])
  {
    forall j: nat | j < |msgs + [b]| ensures TracedAt(run, labels, m, c, k, raw, j, (msgs + [b])[j].result) {
      assert j < |msgs| ==> TracedAt(run, labels, m, c, k, raw, j, msgs[j].result);
    }
  }

  lemma BuiltOneIs(w: Worker, id: int, answer: Option<Resolution>)
    requires w.Shaped() && w.flusher.Building? && |w.flusher.msgs| < |Cut(w.Raw())|
    ensures var message := w.Raw()[|w.flusher.msgs|];
            var res := Lookup(w.flusher.seen, message.sender, answer);
            var w' := BuiltOne(w, id, answer);
            && w'.Shaped() && w'.flusher.Building? && w'.drained == w.drained
            && w'.flusher.msgs == w.flusher.msgs + [Line(id, message, res)]
            && w'.flusher.seen == w.flusher.seen[message.sender := res]
  {
  }

  lemma BuiltOneIsTraced(run: seq<Sys>, labels: seq<Label>, m: nat, w: Worker, c: nat, id: int)
    requires m < |run| && m < |labels| && labels[m].BuildOne? && labels[m].ch == c
    requires c < |run[m].workers| && w == run[m].workers[c] && w.Shaped() && w.flusher.Building?
    requires |w.flusher.msgs| < |Cut(w.Raw())| && Remembered(w.Raw(), w.flusher.msgs, w.flusher.seen)
    requires WorkerTraced(run, labels, m, w, c)
    ensures BuiltOne(w, id, labels[m].answer).Shaped()
    ensures WorkerTraced(run, labels, m + 1, BuiltOne(w, id, labels[m].answer), c)
  {
    var raw, k, msgs, answer := w.Raw(), |w.drained| - 1, w.flusher.msgs, labels[m].answer;
    BuiltOneIs(w, id, answer);
    TracedLater(run, labels, m, c, k, raw, msgs);
    NewLineIsTraced(run, labels, m, w, c);
    var res := Lookup(w.flusher.seen, raw[|msgs|].sender, answer);
    OneMoreTraced(run, labels, m + 1, c, k, raw, msgs, Line(id, raw[|msgs|], res));
    SpeakersGrow(raw, |msgs|, w.flusher.seen, res);
    MadeOfParts(run, labels, m + 1, BuiltOne(w, id, answer), c);
  }

  lemma MadeOfParts(run: seq<Sys>, labels: seq<Label>, m: nat, w: Worker, c: nat)
    requires w.Shaped() && w.flusher.Building?
    requires Traced(run, labels, m, c, |w.drained| - 1, w.Raw(), w.flusher.msgs)
    requires KnowsSpeakers(w.Raw(), |w.flusher.msgs|, w.flusher.seen)
    ensures WorkerTraced(run, labels, m, w, c)
  {
  }

  /** A worker's flush goes on with the lines it has, or starts with none. */
  ghost predicate SameLines(w: Worker, w': Worker) {
    || !(w'.flusher.Building? || w'.flusher.Sending?)
    || (w'.flusher.Building? && w'.flusher.msgs == [] && w'.flusher.seen == map[])
    || (&& (w.flusher.Building? || w.flusher.Sending?)
        && w'.flusher.msgs == w.flusher.msgs && w'.drained == w.drained
        && (w'.flusher.Building? ==> w.flusher.Building? && w'.flusher.seen == w.flusher.seen))
  }

  lemma SameLinesStayTraced(run: seq<Sys>, labels: seq<Label>, m: nat, w: Worker, w': Worker, c: nat)
    requires w.Shaped() && w'.Shaped() && WorkerTraced(run, labels, m, w, c) && SameLines(w, w')
    ensures WorkerTraced(run, labels, m + 1, w', c)
  {
    if (w.flusher.Building? || w.flusher.Sending?) && w'.drained == w.drained {
      TracedLater(run, labels, m, c, |w.drained| - 1, w.Raw(), w.flusher.msgs);
    }
  }

  lemma MovesKeepLines(w: Worker, w': Worker, l: Label)
    requires HubLosses.Moves(w, w', l) && w.Shaped() && !l.BuildOne?
    ensures SameLines(w, w')
  {
  }

  lemma MovesKeepDrained(w: Worker, w': Worker, l: Label)
    requires HubLosses.Moves(w, w', l)
    ensures w.drained <= w'.drained
  {
  }

  /** Only a BuildOne of the channel adds a line. */
  lemma OthersKeepLines(cfg: Config, s: Sys, l: Label, c: nat)
    requires s.Shaped() && Enabled(s, l) && c < |s.workers| && !(l.BuildOne? && l.ch == c)
    ensures c < |Apply(cfg, s, l).workers| && SameLines(s.workers[c], Apply(cfg, s, l).workers[c])
  {
    if l.BuildOne? {
      HubLosses.OthersStay(cfg, s, l, c);
    } else {
      HubLosses.StepMoves(cfg, s, l, c);
      MovesKeepLines(s.workers[c], Apply(cfg, s, l).workers[c], l);
    }
  }

  lemma WorkerStep(cfg: Config, run: seq<Sys>, labels: seq<Label>, m: nat, c: nat)
    requires m + 1 < |run| && m < |labels| && Next(cfg, run[m], labels[m], run[m + 1])
    requires c < |run[m].workers| && WorkerOk(run[m].issued, run[m].workers[c], c)
    requires WorkerTraced(run, labels, m, run[m].workers[c], c)
    requires c < |run[m + 1].workers| && run[m + 1].workers[c].Shaped()
    ensures WorkerTraced(run, labels, m + 1, run[m + 1].workers[c], c)
    ensures run[m].workers[c].drained <= run[m + 1].workers[c].drained
  {
    var s, l := run[m], labels[m];
    HubLosses.StepMoves(cfg, s, l, c);
    MovesKeepDrained(s.workers[c], run[m + 1].workers[c], l);
    if l.BuildOne? && l.ch == c {
      BuiltOneIsTraced(run, labels, m, s.workers[c], c, |s.issued| + 1);
    } else {
      OthersKeepLines(cfg, s, l, c);
      SameLinesStayTraced(run, labels, m, s.workers[c], run[m + 1].workers[c], c);
    }
  }

  /** The last batch of a sending worker, as a payload. */
  function InHand(w: Worker): Payload
    requires w.Shaped() && w.flusher.Sending?
  {
    Payload(|w.drained| - 1, w.flusher.msgs)
  }

  /** A queue takes in nothing but what its own channel's worker sends. */
  lemma QueueTakes(cfg: Config, s: Sys, l: Label, x: nat)
    requires HubSafety.Inv(cfg, s) && Enabled(s, l) && x < |s.queues|
    ensures x < |Apply(cfg, s, l).queues|
    ensures s.core.subs[x] < |s.workers|
    ensures var w, q, q' := s.workers[s.core.subs[x]], s.queues[x], Apply(cfg, s, l).queues[x];
            q'.accepted == q.accepted || (w.flusher.Sending? && q'.accepted == q.accepted + [InHand(w)])
  {
    if l.SendOne? {
      assert s.SnapshotInRange(l.ch) && HubSafety.SnapshotOk(s, l.ch);
    }
  }

  lemma NewQueuesAreEmpty(cfg: Config, s: Sys, l: Label, x: nat)
    requires s.Shaped() && Enabled(s, l)
    ensures |s.queues| <= x < |Apply(cfg, s, l).queues| ==> Apply(cfg, s, l).queues[x].accepted == []
  {
    if l.Subscribe? {
      var more := DoSubscribe(cfg, s, l.id).queues;
      assert more == s.queues || more == s.queues + [NewQueue];
    } else if l.SendOne? {
      assert s.SnapshotInRange(l.ch);
    }
  }

  lemma QueueStaysTraced(run: seq<Sys>, labels: seq<Label>, m: nat, w: Worker, w': Worker, c: nat, q: Queue, q': Queue)
    requires w.Shaped() && WorkerTraced(run, labels, m, w, c) && QueueTraced(run, labels, m, w, c, q)
    requires w.drained <= w'.drained
    requires q'.accepted == q.accepted || (w.flusher.Sending? && q'.accepted == q.accepted + [InHand(w)])
    ensures QueueTraced(run, labels, m + 1, w', c, q')
  {
    forall p <- q'.accepted
      ensures p.flush < |w'.drained| && Traced(run, labels, m + 1, c, p.flush, w'.drained[p.flush], p.msgs)
    {
      assert p in q.accepted || (w.flusher.Sending? && p == InHand(w));
      assert p.flush < |w.drained| && Traced(run, labels, m, c, p.flush, w.drained[p.flush], p.msgs);
      assert w'.drained[p.flush] == w.drained[p.flush];
      TracedLater(run, labels, m, c, p.flush, w.drained[p.flush], p.msgs);
    }
  }

  // ----- Runs -----

  ghost predicate AllTraced(run: seq<Sys>, labels: seq<Label>, m: nat)
    requires m < |run| && run[m].Shaped()
  {
    && (forall c: nat :: c < |run[m].workers| ==> ChanTraced(run, labels, m, c))
    && (forall x: nat :: x < |run[m].queues| ==> SubTraced(run, labels, m, x))
  }

  ghost predicate ChanTraced(run: seq<Sys>, labels: seq<Label>, m: nat, c: nat)
    requires m < |run| && run[m].Shaped() && c < |run[m].workers|
  {
    WorkerTraced(run, labels, m, run[m].workers[c], c)
  }

  ghost predicate SubTraced(run: seq<Sys>, labels: seq<Label>, m: nat, x: nat)
    requires m < |run| && run[m].Shaped() && x < |run[m].queues|
  {
    var c := run[m].core.subs[x];
    c < |run[m].workers| && QueueTraced(run, labels, m, run[m].workers[c], c, run[m].queues[x])
  }

  lemma NewWorkersAreIdle(cfg: Config, s: Sys, l: Label, c: nat)
    requires s.Shaped() && Enabled(s, l) && |s.workers| <= c < |Apply(cfg, s, l).workers|
    ensures Apply(cfg, s, l).workers[c] == NewWorker
  {
  }

  lemma ChannelStays(cfg: Config, s: Sys, l: Label, x: nat)
    requires s.Shaped() && Enabled(s, l) && x < |s.queues|
    ensures x < |Apply(cfg, s, l).core.subs| && Apply(cfg, s, l).core.subs[x] == s.core.subs[x]
  {
  }

  lemma WorkersStep(cfg: Config, run: seq<Sys>, labels: seq<Label>, m: nat, m': nat)
    requires m' == m + 1 && m + 1 < |run| && m < |labels| && Next(cfg, run[m], labels[m], run[m + 1])
    requires Delivers(run[m]) && run[m].Shaped() && run[m + 1].Shaped() && AllTraced(run, labels, m)
    ensures forall c: nat :: c < |run[m'].workers| ==> ChanTraced(run, labels, m', c)
  {
    forall c: nat | c < |run[m'].workers| ensures ChanTraced(run, labels, m', c) {
      if c < |run[m].workers| {
        assert ChanTraced(run, labels, m, c);
        assert WorkerOk(run[m].issued, run[m].workers[c], c);
        WorkerStep(cfg, run, labels, m, c);
      } else {
        NewWorkersAreIdle(cfg, run[m], labels[m], c);
      }
    }
  }

  lemma SubStep(cfg: Config, run: seq<Sys>, labels: seq<Label>, m: nat, x: nat)
    requires m + 1 < |run| && m < |labels| && Next(cfg, run[m], labels[m], run[m + 1])
    requires HubSafety.Inv(cfg, run[m]) && Delivers(run[m]) && run[m + 1].Shaped() && AllTraced(run, labels, m)
    requires x < |run[m + 1].queues| && run[m + 1].core.subs[x] < |run[m + 1].workers|
    ensures SubTraced(run, labels, m + 1, x)
  {
    if x < |run[m].queues| {
      var c := run[m].core.subs[x];
      ChannelStays(cfg, run[m], labels[m], x);
      QueueTakes(cfg, run[m], labels[m], x);
      assert SubTraced(run, labels, m, x) && ChanTraced(run, labels, m, c);
      assert WorkerOk(run[m].issued, run[m].workers[c], c);
      WorkerStep(cfg, run, labels, m, c);
      QueueStaysTraced(run, labels, m, run[m].workers[c], run[m + 1].workers[c], c, run[m].queues[x],
        run[m + 1].queues[x]);
    } else {
      NewQueuesAreEmpty(cfg, run[m], labels[m], x);
    }
  }

  lemma AllStep(cfg: Config, run: seq<Sys>, labels: seq<Label>, m: nat, m': nat)
    requires m' == m + 1 && m + 1 < |run| && m < |labels| && Next(cfg, run[m], labels[m], run[m + 1])
    requires HubSafety.Inv(cfg, run[m]) && Delivers(run[m]) && HubSafety.Inv(cfg, run[m + 1]) && Delivers(run[m + 1])
    requires AllTraced(run, labels, m)
    ensures AllTraced(run, labels, m')
  {
    WorkersStep(cfg, run, labels, m, m');
    forall x: nat | x < |run[m'].queues| ensures SubTraced(run, labels, m', x) {
      SubStep(cfg, run, labels, m, x);
    }
  }

  lemma StartsTraced(run: seq<Sys>, labels: seq<Label>)
    requires |run| > 0 && run[0] == Init
    ensures run[0].Shaped() && AllTraced(run, labels, 0)
  {
  }

  lemma StepOfRun(cfg: Config, run: seq<Sys>, labels: seq<Label>, m: nat)
    requires IsRun(cfg, run, labels) && m + 1 < |run|
    ensures m < |labels| && Next(cfg, run[m], labels[m], run[m + 1])
  {
  }

  lemma StateOfRun(cfg: Config, run: seq<Sys>, labels: seq<Label>, m: nat)
    requires cfg.Sensible() && IsRun(cfg, run, labels) && m < |run|
    ensures HubSafety.Inv(cfg, run[m]) && Delivers(run[m])
  {
    HubSafety.RunInv(cfg, run, labels, m);
    HubDelivery.RunInv(cfg, run, labels, m);
  }

  lemma TracedOn(cfg: Config, run: seq<Sys>, labels: seq<Label>, m: nat, m': nat)
    requires m' == m + 1 && cfg.Sensible() && IsRun(cfg, run, labels) && m + 1 < |run|
    requires run[m].Shaped() && AllTraced(run, labels, m)
    ensures run[m'].Shaped() && AllTraced(run, labels, m')
  {
    StepOfRun(cfg, run, labels, m);
    StateOfRun(cfg, run, labels, m);
    StateOfRun(cfg, run, labels, m');
    AllStep(cfg, run, labels, m, m');
  }

  lemma {:induction false} RunTraced(cfg: Config, run: seq<Sys>, labels: seq<Label>, m: nat)
    requires cfg.Sensible() && IsRun(cfg, run, labels) && m < |run|
    ensures run[m].Shaped() && AllTraced(run, labels, m)
  {
    if m == 0 {
      StartsTraced(run, labels);
    } else {
      RunTraced(cfg, run, labels, m - 1);
      TracedOn(cfg, run, labels, m - 1, m);
    }
  }

  // ----- Theorems -----

  /**
   * Every line that a widget is sent, field by field: batch i that it accepted shows the first 200 messages
   * of the drained ones in order, line j with the content, the nickname and the emojis of message j, and with
   * the answer that a step of the run got from the resolver for the first message of that sender.
   */
  lemma DeliveredLines(cfg: Config, run: seq<Sys>, labels: seq<Label>, m: nat, x: nat, i: nat, j: nat)
    returns (f: nat, n: nat)
    requires cfg.Sensible() && IsRun(cfg, run, labels) && m < |run| && x < |run[m].queues|
    requires i < |run[m].queues[x].accepted| && j < |run[m].queues[x].accepted[i].msgs|
    ensures x < |run[m].core.subs| && run[m].core.subs[x] < |run[m].workers|
    ensures var c, p := run[m].core.subs[x], run[m].queues[x].accepted[i];
            var w := run[m].workers[c];
            && p.flush < |w.drained|
            && var raw := w.drained[p.flush];
               && |p.msgs| == (if |raw| > 200 then 200 else |raw|)
               && p.msgs[j].text == raw[j].content
               && p.msgs[j].nickname == raw[j].nickname
               && p.msgs[j].emojis == (if raw[j].emojis.Some? then raw[j].emojis.value else map[])
               && FirstBy(raw, f, j) && n < m && AskedAt(run, labels, n, c, p.flush, f, p.msgs[j].result)
  {
    RunTraced(cfg, run, labels, m);
    HubDelivery.RunInv(cfg, run, labels, m);
    var c, p := run[m].core.subs[x], run[m].queues[x].accepted[i];
    var w := run[m].workers[c];
    assert SubTraced(run, labels, m, x);
    assert p in run[m].queues[x].accepted;
    assert QueueOk(run[m].issued, w, c, run[m].queues[x], x);
    assert Whole(run[m].issued, w, c, p);
    var raw := w.drained[p.flush];
    assert ShownAs(run[m].issued, Origin(c, p.flush, j), raw[j], p.msgs[j]);
    assert TracedAt(run, labels, m, c, p.flush, raw, j, p.msgs[j].result);
    f :| FirstBy(raw, f, j) && Asked(run, labels, m, c, p.flush, f, p.msgs[j].result);
    n :| n < m && AskedAt(run, labels, n, c, p.flush, f, p.msgs[j].result);
  }
}

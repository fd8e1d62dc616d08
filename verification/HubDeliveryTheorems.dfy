/** What a widget can rely on in every state of every run of the hub. */
module HubDeliveryTheorems {
  import opened Sequences
  import opened HubCore
  import opened Batch
  import opened ResolverTypes
  import opened HubSystem
  import opened HubDelivery

  /** Every pushed message has been drained once, in order, or is still buffered. */
  lemma PushesAreConserved(cfg: Config, run: seq<Sys>, labels: seq<Label>, n: nat, c: nat)
    requires cfg.Sensible() && IsRun(cfg, run, labels) && n < |run| && c < |run[n].workers|
    ensures Flatten(run[n].workers[c].drained) + run[n].workers[c].buffer == run[n].workers[c].pushed
  {
    HubDelivery.RunInv(cfg, run, labels, n);
    assert WorkerOk(run[n].issued, run[n].workers[c], c);
  }

  /** Everything that a subscriber's queue has taken in, as one list of messages. */
  function MsgsOf(ps: seq<Payload>): seq<BatchMessage> {
    if ps == [] then [] else ps[0].msgs + MsgsOf(ps[1..])
  }

  /** A line without what the hub adds to the message. */
  function Bare(b: BatchMessage): BatchMessage {
    b.(id := 0, result := UNLINKED)
  }

  function BareSeq(bs: seq<BatchMessage>): (r: seq<BatchMessage>)
    ensures |r| == |bs| && forall i :: 0 <= i < |bs| ==> r[i] == Bare(bs[i])
  {
    seq(|bs|, i requires 0 <= i < |bs| => Bare(bs[i]))
  }

  function Lines(ms: seq<ChatMessage>): (r: seq<BatchMessage>)
    ensures |r| == |ms| && forall i :: 0 <= i < |ms| ==> r[i] == Line(0, ms[i], UNLINKED) && Carries(r[i], ms[i])
  {
    seq(|ms|, i requires 0 <= i < |ms| => Line(0, ms[i], UNLINKED))
  }

  // ----- Order and uniqueness of ids -----

  /** Payloads of channel c, whole, in increasing flush order from flush k on. */
  ghost predicate InOrder(issued: seq<Origin>, w: Worker, c: nat, ps: seq<Payload>, k: nat) {
    && (forall i :: 0 <= i < |ps| ==> Whole(issued, w, c, ps[i]) && k <= ps[i].flush)
    && (forall i, j :: 0 <= i < j < |ps| ==> ps[i].flush < ps[j].flush)
  }

  ghost predicate IssuedFrom(issued: seq<Origin>, c: nat, k: nat, b: BatchMessage) {
    1 <= b.id <= |issued| && issued[b.id - 1].ch == c && k <= issued[b.id - 1].flush
  }

  lemma IdsFollowOrigins(issued: seq<Origin>, a: int, b: int)
    requires IssuedInOrder(issued) && 1 <= a <= |issued| && 1 <= b <= |issued|
    requires issued[a - 1].ch == issued[b - 1].ch && issued[a - 1] != issued[b - 1]
             && Before(issued[a - 1], issued[b - 1])
    ensures a < b
  {
  }

  lemma {:induction false} IdsIncrease(issued: seq<Origin>, w: Worker, c: nat, ps: seq<Payload>, k: nat)
    requires IssuedInOrder(issued) && InOrder(issued, w, c, ps, k)
    ensures forall i :: 0 <= i < |MsgsOf(ps)| ==> IssuedFrom(issued, c, k, MsgsOf(ps)[i])
    ensures forall i, j :: 0 <= i < j < |MsgsOf(ps)| ==> MsgsOf(ps)[i].id < MsgsOf(ps)[j].id
  {
    if ps != [] {
      var head, tail := ps[0].msgs, MsgsOf(ps[1..]);
      var first := ps[0].flush;
      assert Whole(issued, w, c, ps[0]);
      IdsIncrease(issued, w, c, ps[1..], first + 1);
      forall i | 0 <= i < |head|
        ensures 1 <= head[i].id <= |issued| && issued[head[i].id - 1] == Origin(c, first, i)
      {
        assert ShownAs(issued, Origin(c, first, i), w.drained[first][i], head[i]);
      }
      forall i, j | 0 <= i < j < |MsgsOf(ps)| ensures MsgsOf(ps)[i].id < MsgsOf(ps)[j].id {
        if i < |head| {
          assert j >= |head| ==> IssuedFrom(issued, c, first + 1, tail[j - |head|]);
          IdsFollowOrigins(issued, MsgsOf(ps)[i].id, MsgsOf(ps)[j].id);
        } else {
          assert tail[i - |head|].id < tail[j - |head|].id;
        }
      }
      forall i | 0 <= i < |MsgsOf(ps)| ensures IssuedFrom(issued, c, k, MsgsOf(ps)[i]) {
        assert i >= |head| ==> IssuedFrom(issued, c, first + 1, tail[i - |head|]);
      }
    }
  }

  /** Message ids strictly increase along everything a widget is sent. */
  lemma WidgetSeesIncreasingIds(cfg: Config, run: seq<Sys>, labels: seq<Label>, n: nat, x: nat)
    requires cfg.Sensible() && IsRun(cfg, run, labels) && n < |run| && x < |run[n].queues|
    ensures forall i, j :: 0 <= i < j < |MsgsOf(run[n].queues[x].accepted)| ==>
              MsgsOf(run[n].queues[x].accepted)[i].id < MsgsOf(run[n].queues[x].accepted)[j].id
  {
    HubDelivery.RunInv(cfg, run, labels, n);
    var s := run[n];
    var c := s.core.subs[x];
    IdsIncrease(s.issued, s.workers[c], c, s.queues[x].accepted, 0);
  }

  /** Two accepted messages with one id are the same message, whichever widgets and channels they went to. */
  lemma IdsAreUnique(cfg: Config, run: seq<Sys>, labels: seq<Label>, n: nat, x: nat, i: nat, j: nat, y: nat, k: nat,
      l: nat)
    requires cfg.Sensible() && IsRun(cfg, run, labels) && n < |run|
    requires x < |run[n].queues| && i < |run[n].queues[x].accepted| && j < |run[n].queues[x].accepted[i].msgs|
    requires y < |run[n].queues| && k < |run[n].queues[y].accepted| && l < |run[n].queues[y].accepted[k].msgs|
    requires run[n].queues[x].accepted[i].msgs[j].id == run[n].queues[y].accepted[k].msgs[l].id
    ensures x < |run[n].core.subs| && y < |run[n].core.subs|
    ensures run[n].core.subs[x] == run[n].core.subs[y]
    ensures run[n].queues[x].accepted[i].flush == run[n].queues[y].accepted[k].flush && j == l
    ensures Bare(run[n].queues[x].accepted[i].msgs[j]) == Bare(run[n].queues[y].accepted[k].msgs[l])
  {
    HubDelivery.RunInv(cfg, run, labels, n);
    AcceptedOrigin(run[n], x, i, j);
    AcceptedOrigin(run[n], y, k, l);
  }

  lemma AcceptedOrigin(s: Sys, x: nat, i: nat, j: nat)
    requires Delivers(s)
    requires x < |s.queues| && i < |s.queues[x].accepted| && j < |s.queues[x].accepted[i].msgs|
    ensures x < |s.core.subs| && s.core.subs[x] < |s.workers|
    ensures var w := s.workers[s.core.subs[x]];
            var p := s.queues[x].accepted[i];
            && p.flush < |w.drained| && j < |w.drained[p.flush]|
            && Bare(p.msgs[j]) == Line(0, w.drained[p.flush][j], UNLINKED)
            && Carries(p.msgs[j], w.drained[p.flush][j])
            && 1 <= p.msgs[j].id <= |s.issued|
            && s.issued[p.msgs[j].id - 1] == Origin(s.core.subs[x], p.flush, j)
  {
  }

  // ----- Content -----

  lemma LinesConcat(a: seq<ChatMessage>, b: seq<ChatMessage>)
    ensures Lines(a + b) == Lines(a) + Lines(b)
  {
  }

  lemma BareConcat(a: seq<BatchMessage>, b: seq<BatchMessage>)
    ensures BareSeq(a + b) == BareSeq(a) + BareSeq(b)
  {
  }

  lemma HeadIsPrefix(issued: seq<Origin>, w: Worker, c: nat, p: Payload)
    requires Whole(issued, w, c, p)
    ensures |p.msgs| <= |w.drained[p.flush]|
    ensures BareSeq(p.msgs) == Lines(w.drained[p.flush])[..|p.msgs|]
  {
  }

  lemma PrefixThenRest(shown: seq<BatchMessage>, tail: seq<BatchMessage>, lines: seq<BatchMessage>,
      rest: seq<BatchMessage>)
    requires |shown| <= |lines| && shown == lines[..|shown|]
    requires Subsequence(tail, rest)
    ensures Subsequence(shown + tail, lines + rest)
  {
    var cut := lines[|shown|..];
    SubsequenceSkips(tail, cut, rest);
    SubsequenceKeeps(shown, tail, cut + rest);
    assert lines + rest == shown + (cut + rest);
  }

  lemma {:induction false} ContentInOrder(issued: seq<Origin>, w: Worker, c: nat, ps: seq<Payload>, k: nat)
    requires k <= |w.drained| && InOrder(issued, w, c, ps, k)
    ensures Subsequence(BareSeq(MsgsOf(ps)), Lines(Flatten(w.drained[k..])))
    decreases |w.drained| - k
  {
    if ps != [] {
      assert Whole(issued, w, c, ps[0]);
      var raw, rest := w.drained[k], Flatten(w.drained[k + 1..]);
      assert w.drained[k..][1..] == w.drained[k + 1..];
      LinesConcat(raw, rest);
      if ps[0].flush == k {
        ContentInOrder(issued, w, c, ps[1..], k + 1);
        HeadIsPrefix(issued, w, c, ps[0]);
        PrefixThenRest(BareSeq(ps[0].msgs), BareSeq(MsgsOf(ps[1..])), Lines(raw), Lines(rest));
        BareConcat(ps[0].msgs, MsgsOf(ps[1..]));
      } else {
        ContentInOrder(issued, w, c, ps, k + 1);
        SubsequenceSkips(BareSeq(MsgsOf(ps)), Lines(raw), Lines(rest));
      }
    }
  }

  /** What a widget is sent is what was pushed to its channel, with messages left out but none added or reordered. */
  lemma WidgetSeesSubsequence(cfg: Config, run: seq<Sys>, labels: seq<Label>, n: nat, x: nat)
    requires cfg.Sensible() && IsRun(cfg, run, labels) && n < |run| && x < |run[n].queues|
    ensures x < |run[n].core.subs| && run[n].core.subs[x] < |run[n].workers|
    ensures Subsequence(BareSeq(MsgsOf(run[n].queues[x].accepted)), Lines(run[n].workers[run[n].core.subs[x]].pushed))
  {
    HubDelivery.RunInv(cfg, run, labels, n);
    var s := run[n];
    var c := s.core.subs[x];
    var w := s.workers[c];
    assert WorkerOk(s.issued, w, c);
    assert QueueOk(s.issued, w, c, s.queues[x], x);
    ContentInOrder(s.issued, w, c, s.queues[x].accepted, 0);
    assert w.drained[0..] == w.drained;
    LinesConcat(Flatten(w.drained), w.buffer);
    SubsequenceExtends(BareSeq(MsgsOf(s.queues[x].accepted)), Lines(Flatten(w.drained)), Lines(w.buffer));
  }

  // ----- Losses -----

  /**
   * The fate of a finished flush decides what each subscriber of the channel gets of it: those in
   * the snapshot get it whole (its first 200 messages) unless their own queue held 64 batches at
   * that moment; nobody else gets anything.
   */
  lemma FateDecides(cfg: Config, run: seq<Sys>, labels: seq<Label>, n: nat, x: nat, k: nat)
    requires cfg.Sensible() && IsRun(cfg, run, labels) && n < |run| && x < |run[n].queues|
    requires x < |run[n].core.subs| && run[n].core.subs[x] < |run[n].workers|
    requires k < |run[n].workers[run[n].core.subs[x]].fates| && !run[n].workers[run[n].core.subs[x]].fates[k].Pending?
    ensures var w := run[n].workers[run[n].core.subs[x]];
            var q := run[n].queues[x];
            && k < |w.drained|
            && (k in Flushes(q.accepted) || k in Missed(q.dropped) <==> w.fates[k].FannedOut? && x in w.fates[k].snap)
            && !(k in Flushes(q.accepted) && k in Missed(q.dropped))
            && (forall i :: 0 <= i < |q.accepted| && q.accepted[i].flush == k ==>
                  BareSeq(q.accepted[i].msgs) == Lines(Cut(w.drained[k])))
            && (forall i :: 0 <= i < |q.dropped| && q.dropped[i].flush == k ==>
                  q.dropped[i].backlog == 64)
  {
    HubDelivery.RunInv(cfg, run, labels, n);
    var s := run[n];
    var c := s.core.subs[x];
    var w, q := s.workers[c], s.queues[x];
    assert WorkerOk(s.issued, w, c);
    assert QueueOk(s.issued, w, c, q, x);
    assert OfferedTo(w, k, x) <==> k in Flushes(q.accepted) || k in Missed(q.dropped);
    forall i | 0 <= i < |q.accepted| && q.accepted[i].flush == k
      ensures BareSeq(q.accepted[i].msgs) == Lines(Cut(w.drained[k]))
    {
      assert Whole(s.issued, w, c, q.accepted[i]);
      forall j | 0 <= j < |q.accepted[i].msgs| ensures Bare(q.accepted[i].msgs[j]) == Lines(Cut(w.drained[k]))[j] {
        assert ShownAs(s.issued, Origin(c, k, j), w.drained[k][j], q.accepted[i].msgs[j]);
      }
    }
  }

  /** Within one batch a sender is shown one way. */
  lemma OneAnswerPerSender(cfg: Config, run: seq<Sys>, labels: seq<Label>, n: nat, x: nat, i: nat, a: nat, b: nat)
    requires cfg.Sensible() && IsRun(cfg, run, labels) && n < |run| && x < |run[n].queues|
    requires x < |run[n].core.subs| && run[n].core.subs[x] < |run[n].workers|
    requires i < |run[n].queues[x].accepted| && a < b < |run[n].queues[x].accepted[i].msgs|
    ensures var w := run[n].workers[run[n].core.subs[x]];
            var p := run[n].queues[x].accepted[i];
            && p.flush < |w.drained| && b < |w.drained[p.flush]|
            && (w.drained[p.flush][a].sender == w.drained[p.flush][b].sender ==> p.msgs[a].result == p.msgs[b].result)
  {
    HubDelivery.RunInv(cfg, run, labels, n);
    var s := run[n];
    var c := s.core.subs[x];
    assert QueueOk(s.issued, s.workers[c], c, s.queues[x], x);
    assert Whole(s.issued, s.workers[c], c, s.queues[x].accepted[i]);
  }

  /** A widget is handed exactly the accepted payloads in order; at most 64 wait for it. */
  lemma QueueIsTheUnreadTail(cfg: Config, run: seq<Sys>, labels: seq<Label>, n: nat, x: nat)
    requires cfg.Sensible() && IsRun(cfg, run, labels) && n < |run| && x < |run[n].queues|
    ensures Backlog(run[n].queues[x]) && |run[n].queues[x].items| <= 64
  {
    HubDelivery.RunInv(cfg, run, labels, n);
    assert QueueOk(run[n].issued, run[n].workers[run[n].core.subs[x]], run[n].core.subs[x], run[n].queues[x], x);
  }
}

/**
 * What reaches a widget (internal/realtime/hub.go): every pushed message is buffered or drained
 * once and in order, a batch shows exactly its first 200 messages under fresh ids, and a
 * subscriber receives the batches addressed to it in order, missing one only if its own queue is full.
 */
module HubDelivery {
  import opened Wrappers
  import opened Sequences
  import opened HubCore
  import opened Batch
  import opened HubSystem
  import opened ResolverTypes
  import HubSafety

  // ----- Messages and their ids -----

  /** msgs shows the first messages of raw, in order, under ids issued for flush k of channel c. */
  ghost predicate Built(issued: seq<Origin>, c: nat, k: nat, raw: seq<ChatMessage>, msgs: seq<BatchMessage>) {
    && |msgs| <= |Cut(raw)|
    && (forall j :: 0 <= j < |msgs| ==> ShownAs(issued, Origin(c, k, j), raw[j], msgs[j]))
    && (forall i, j :: 0 <= i < j < |msgs| && raw[i].sender == raw[j].sender ==> msgs[i].result == msgs[j].result)
  }

  ghost predicate ShownAs(issued: seq<Origin>, o: Origin, m: ChatMessage, b: BatchMessage) {
    && b == Line(b.id, m, b.result)
    && 1 <= b.id <= |issued|
    && issued[b.id - 1] == o
  }

  ghost predicate Before(a: Origin, b: Origin) {
    a.ch == b.ch ==> a.flush < b.flush || (a.flush == b.flush && a.offset < b.offset)
  }

  /** Ids of one channel are issued in the order of its batches and of the messages in them. */
  ghost predicate IssuedInOrder(issued: seq<Origin>) {
    forall i, j :: 0 <= i < j < |issued| ==> Before(issued[i], issued[j])
  }

  /** Every id so far belongs to a message already built. */
  ghost predicate IssuedOk(workers: seq<Worker>, o: Origin) {
    && o.ch < |workers|
    && var w := workers[o.ch];
    && o.flush < |w.drained|
    && (o.flush == |w.drained| - 1 ==>
          && !w.flusher.Drained?
          && (w.flusher.Building? ==> o.offset < |w.flusher.msgs|))
  }

  /** The memo holds what the batch shows of each sender so far. */
  ghost predicate Remembered(raw: seq<ChatMessage>, msgs: seq<BatchMessage>, seen: map<string, Resolution>) {
    |msgs| <= |raw| && forall j :: 0 <= j < |msgs| ==> raw[j].sender in seen && seen[raw[j].sender] == msgs[j].result
  }

  // ----- One channel -----

  ghost predicate WorkerOk(issued: seq<Origin>, w: Worker, c: nat) {
    && w.Shaped()
    && Flatten(w.drained) + w.buffer == w.pushed
    && (forall k :: 0 <= k < |w.fates| ==> (w.fates[k].Pending? <==> w.InFlight() && k == |w.drained| - 1))
    && (w.flusher.Building? ==>
          && Built(issued, c, |w.drained| - 1, w.Raw(), w.flusher.msgs)
          && Remembered(w.Raw(), w.flusher.msgs, w.flusher.seen))
    && (w.flusher.Sending? ==>
          && Built(issued, c, |w.drained| - 1, w.Raw(), w.flusher.msgs)
          && |w.flusher.msgs| == |Cut(w.Raw())|)
  }

  // ----- One subscriber -----

  function Flushes(ps: seq<Payload>): set<nat> {
    set i | 0 <= i < |ps| :: ps[i].flush
  }

  function Missed(ds: seq<Drop>): set<nat> {
    set i | 0 <= i < |ds| :: ds[i].flush
  }

  /** Batch k of the channel has been offered to subscriber x. */
  predicate OfferedTo(w: Worker, k: nat, x: nat)
    requires w.Shaped() && k < |w.drained|
  {
    match w.fates[k]
    case FannedOut(snap) => x in snap
    case Pending => w.flusher.Sending? && x in w.flusher.snap[..w.flusher.sent]
    case _ => false
  }

  ghost predicate Whole(issued: seq<Origin>, w: Worker, c: nat, p: Payload) {
    && p.flush < |w.drained|
    && Built(issued, c, p.flush, w.drained[p.flush], p.msgs)
    && |p.msgs| == |Cut(w.drained[p.flush])|
  }

  /** The widget has taken all but the queued payloads. */
  ghost predicate Backlog(q: Queue) {
    |q.items| <= |q.accepted| && q.items == q.accepted[|q.accepted| - |q.items|..] && |q.items| <= SUBSCRIBER_BUFFER
  }

  ghost predicate QueueOk(issued: seq<Origin>, w: Worker, c: nat, q: Queue, x: nat)
    requires w.Shaped()
  {
    && Backlog(q)
    && (forall i :: 0 <= i < |q.accepted| ==> Whole(issued, w, c, q.accepted[i]))
    && (forall i, j :: 0 <= i < j < |q.accepted| ==> q.accepted[i].flush < q.accepted[j].flush)
    && (forall i :: 0 <= i < |q.dropped| ==>
          q.dropped[i].backlog == SUBSCRIBER_BUFFER && q.dropped[i].flush < |w.drained|)
    && (forall k :: 0 <= k < |w.drained| ==>
          (OfferedTo(w, k, x) <==> k in Flushes(q.accepted) || k in Missed(q.dropped)))
    && Flushes(q.accepted) !! Missed(q.dropped)
  }

  /** Only subscriptions made so far appear in snapshots. */
  ghost predicate SnapshotsKnown(w: Worker, n: nat) {
    && (forall k, i :: 0 <= k < |w.fates| && w.fates[k].FannedOut? && 0 <= i < |w.fates[k].snap| ==>
          w.fates[k].snap[i] < n)
    && (w.flusher.Building? || w.flusher.Sending? ==>
          forall i :: 0 <= i < |w.flusher.snap| ==> w.flusher.snap[i] < n)
  }

  ghost predicate Inv(workers: seq<Worker>, queues: seq<Queue>, subs: seq<nat>, issued: seq<Origin>) {
    && |queues| == |subs|
    && IssuedInOrder(issued)
    && (forall i :: 0 <= i < |issued| ==> IssuedOk(workers, issued[i]))
    && (forall c :: 0 <= c < |workers| ==> WorkerOk(issued, workers[c], c))
    && (forall c :: 0 <= c < |workers| ==> SnapshotsKnown(workers[c], |queues|))
    && (forall x :: 0 <= x < |queues| ==>
          subs[x] < |workers| && QueueOk(issued, workers[subs[x]], subs[x], queues[x], x))
  }

  // ----- Preservation -----

  lemma BuiltStays(issued: seq<Origin>, more: seq<Origin>, c: nat, k: nat, raw: seq<ChatMessage>,
      msgs: seq<BatchMessage>)
    requires Built(issued, c, k, raw, msgs)
    ensures Built(issued + more, c, k, raw, msgs)
  {
  }

  /** A queue does not notice a worker step that offers nothing and drains nothing away. */
  lemma QueueStays(issued: seq<Origin>, more: seq<Origin>, w: Worker, w': Worker, c: nat, q: Queue, x: nat)
    requires w.Shaped() && w'.Shaped() && QueueOk(issued, w, c, q, x)
    requires w.drained <= w'.drained
    requires forall k :: 0 <= k < |w.drained| ==> OfferedTo(w', k, x) == OfferedTo(w, k, x)
    requires forall k :: |w.drained| <= k < |w'.drained| ==> !OfferedTo(w', k, x)
    ensures QueueOk(issued + more, w', c, q, x)
  {
  }

  /** A step of worker c that issues at most one id and offers no batch to anyone. */
  lemma WorkerStepKeeps(workers: seq<Worker>, queues: seq<Queue>, subs: seq<nat>, issued: seq<Origin>,
                        c: nat, w': Worker, more: seq<Origin>)
    requires Inv(workers, queues, subs, issued) && c < |workers|
    requires WorkerOk(issued + more, w', c) && SnapshotsKnown(w', |queues|)
    requires workers[c].drained <= w'.drained
    requires forall k, x | 0 <= k < |workers[c].drained| :: OfferedTo(w', k, x) == OfferedTo(workers[c], k, x)
    requires forall k, x | |workers[c].drained| <= k < |w'.drained| :: !OfferedTo(w', k, x)
    requires IssuedInOrder(issued + more)
    requires forall i :: 0 <= i < |issued + more| ==> IssuedOk(workers[c := w'], (issued + more)[i])
    ensures Inv(workers[c := w'], queues, subs, issued + more)
  {
    var workers' := workers[c := w'];
    forall d | 0 <= d < |workers'| ensures WorkerOk(issued + more, workers'[d], d) {
      if d != c {
        var w := workers[d];
        assert WorkerOk(issued, w, d);
        if w.flusher.Building? || w.flusher.Sending? {
          BuiltStays(issued, more, d, |w.drained| - 1, w.Raw(), w.flusher.msgs);
        }
      }
    }
    forall x | 0 <= x < |queues| ensures QueueOk(issued + more, workers'[subs[x]], subs[x], queues[x], x) {
      QueueStays(issued, more, workers[subs[x]], workers'[subs[x]], subs[x], queues[x], x);
    }
  }

  lemma PushKeeps(workers: seq<Worker>, queues: seq<Queue>, subs: seq<nat>, issued: seq<Origin>, c: nat, m: ChatMessage)
    requires Inv(workers, queues, subs, issued) && c < |workers|
    ensures Inv(workers[c := Pushed(workers[c], m)], queues, subs, issued)
  {
    assert issued + [] == issued;
    assert WorkerOk(issued, workers[c], c) && SnapshotsKnown(workers[c], |queues|);
    WorkerStepKeeps(workers, queues, subs, issued, c, Pushed(workers[c], m), []);
  }

  lemma DrainKeeps(workers: seq<Worker>, queues: seq<Queue>, subs: seq<nat>, issued: seq<Origin>, c: nat)
    requires Inv(workers, queues, subs, issued) && c < |workers| && workers[c].flusher.Idle?
    ensures Inv(workers[c := DrainedOnce(workers[c])], queues, subs, issued)
  {
    var w := workers[c];
    assert issued + [] == issued;
    assert WorkerOk(issued, w, c) && SnapshotsKnown(w, |queues|);
    FlattenConcat(w.drained, [w.buffer]);
    assert Flatten([w.buffer]) == w.buffer;
    WorkerStepKeeps(workers, queues, subs, issued, c, DrainedOnce(w), []);
  }

  lemma SnapshotKeeps(workers: seq<Worker>, queues: seq<Queue>, subs: seq<nat>, issued: seq<Origin>, c: nat,
      order: seq<nat>)
    requires Inv(workers, queues, subs, issued) && c < |workers| && workers[c].flusher.Drained? && workers[c].Shaped()
    requires forall i :: 0 <= i < |order| ==> order[i] < |queues|
    ensures Inv(workers[c := Snapshotted(workers[c], order)], queues, subs, issued)
  {
    assert issued + [] == issued;
    assert WorkerOk(issued, workers[c], c) && SnapshotsKnown(workers[c], |queues|);
    WorkerStepKeeps(workers, queues, subs, issued, c, Snapshotted(workers[c], order), []);
  }

  lemma BuiltExtends(issued: seq<Origin>, c: nat, k: nat, raw: seq<ChatMessage>, msgs: seq<BatchMessage>,
                     seen: map<string, Resolution>, answer: Option<Resolution>)
    requires Built(issued, c, k, raw, msgs) && Remembered(raw, msgs, seen) && |msgs| < |Cut(raw)|
    ensures var m := raw[|msgs|];
            var res := Lookup(seen, m.sender, answer);
            var msgs' := msgs + [Line(|issued| + 1, m, res)];
            && Built(issued + [Origin(c, k, |msgs|)], c, k, raw, msgs')
            && Remembered(raw, msgs', seen[m.sender := res])
  {
  }

  lemma BuiltOneOk(issued: seq<Origin>, w: Worker, c: nat, answer: Option<Resolution>)
    requires WorkerOk(issued, w, c) && w.flusher.Building? && |w.flusher.msgs| < |Cut(w.Raw())|
    ensures WorkerOk(issued + [Origin(c, |w.drained| - 1, |w.flusher.msgs|)], BuiltOne(w, |issued| + 1, answer), c)
  {
    BuiltExtends(issued, c, |w.drained| - 1, w.Raw(), w.flusher.msgs, w.flusher.seen, answer);
  }

  lemma BuildOneKeeps(workers: seq<Worker>, queues: seq<Queue>, subs: seq<nat>, issued: seq<Origin>, c: nat,
      answer: Option<Resolution>)
    requires Inv(workers, queues, subs, issued) && c < |workers|
    requires workers[c].Shaped() && workers[c].flusher.Building? && |workers[c].flusher.msgs| < |Cut(workers[c].Raw())|
    ensures var w := workers[c];
            Inv(workers[c := BuiltOne(w, |issued| + 1, answer)], queues, subs,
                issued + [Origin(c, |w.drained| - 1, |w.flusher.msgs|)])
  {
    var w := workers[c];
    var w' := BuiltOne(w, |issued| + 1, answer);
    var more := [Origin(c, |w.drained| - 1, |w.flusher.msgs|)];
    assert WorkerOk(issued, w, c) && SnapshotsKnown(w, |queues|);
    BuiltOneOk(issued, w, c, answer);
    forall i | 0 <= i < |issued| ensures Before(issued[i], more[0]) {
      assert IssuedOk(workers, issued[i]);
    }
    forall i | 0 <= i < |issued + more| ensures IssuedOk(workers[c := w'], (issued + more)[i]) {
      assert i < |issued| ==> IssuedOk(workers, issued[i]);
    }
    WorkerStepKeeps(workers, queues, subs, issued, c, w', more);
  }

  lemma EncodeKeeps(workers: seq<Worker>, queues: seq<Queue>, subs: seq<nat>, issued: seq<Origin>, c: nat, ok: bool)
    requires Inv(workers, queues, subs, issued) && c < |workers|
    requires workers[c].Shaped() && workers[c].flusher.Building? && |workers[c].flusher.msgs| == |Cut(workers[c].Raw())|
    ensures Inv(workers[c := Encoded(workers[c], ok)], queues, subs, issued)
  {
    var w, w' := workers[c], Encoded(workers[c], ok);
    assert issued + [] == issued;
    assert WorkerOk(issued, w, c) && SnapshotsKnown(w, |queues|);
    EncodedOk(issued, w, c, ok, |queues|);
    forall i | 0 <= i < |issued| ensures IssuedOk(workers[c := w'], issued[i]) {
      assert IssuedOk(workers, issued[i]);
    }
    WorkerStepKeeps(workers, queues, subs, issued, c, w', []);
  }

  lemma EncodedOk(issued: seq<Origin>, w: Worker, c: nat, ok: bool, n: nat)
    requires WorkerOk(issued, w, c) && SnapshotsKnown(w, n)
    requires w.flusher.Building? && |w.flusher.msgs| == |Cut(w.Raw())|
    ensures WorkerOk(issued, Encoded(w, ok), c) && SnapshotsKnown(Encoded(w, ok), n)
    ensures forall k, x :: 0 <= k < |w.drained| ==> OfferedTo(Encoded(w, ok), k, x) == OfferedTo(w, k, x)
  {
  }

  lemma ExitKeeps(workers: seq<Worker>, queues: seq<Queue>, subs: seq<nat>, issued: seq<Origin>, c: nat, w': Worker)
    requires Inv(workers, queues, subs, issued) && c < |workers|
    requires w' == workers[c].(ingesting := false) || (workers[c].flusher.Idle? && w' == workers[c].(flusher := Gone))
    ensures Inv(workers[c := w'], queues, subs, issued)
  {
    assert issued + [] == issued;
    assert WorkerOk(issued, workers[c], c) && SnapshotsKnown(workers[c], |queues|);
    WorkerStepKeeps(workers, queues, subs, issued, c, w', []);
  }

  /** What a send to subscriber x does to the record of who was offered what. */
  lemma OfferAdvances(w: Worker, x: nat)
    requires w.Shaped() && w.flusher.Sending? && w.flusher.snap[w.flusher.sent] == x
    requires forall k :: 0 <= k < |w.fates| ==> (w.fates[k].Pending? <==> k == |w.fates| - 1)
    requires forall i, j :: 0 <= i < j < |w.flusher.snap| ==> w.flusher.snap[i] != w.flusher.snap[j]
    ensures SentOne(w).Shaped()
    ensures !OfferedTo(w, |w.drained| - 1, x) && OfferedTo(SentOne(w), |w.drained| - 1, x)
    ensures forall k :: 0 <= k < |w.drained| - 1 ==> OfferedTo(SentOne(w), k, x) == OfferedTo(w, k, x)
    ensures forall k, y :: 0 <= k < |w.drained| && y != x ==> OfferedTo(SentOne(w), k, y) == OfferedTo(w, k, y)
  {
  }

  /** Offering the batch in flight to the next subscriber of the snapshot, which has room. */
  lemma AcceptOk(issued: seq<Origin>, w: Worker, w': Worker, c: nat, q: Queue, x: nat, p: Payload)
    requires w.Shaped() && w'.Shaped() && w'.drained == w.drained && w.drained != []
    requires QueueOk(issued, w, c, q, x) && Whole(issued, w, c, p) && p.flush == |w.drained| - 1
    requires !OfferedTo(w, p.flush, x) && OfferedTo(w', p.flush, x)
    requires forall k :: 0 <= k < p.flush ==> OfferedTo(w', k, x) == OfferedTo(w, k, x)
    requires |q.items| < SUBSCRIBER_BUFFER
    ensures QueueOk(issued, w', c, Offered(q, p), x)
  {
    var q' := Offered(q, p);
    AcceptedOffers(w, w', q, x, p);
    AcceptedBacklog(q, p);
    forall i | 0 <= i < |q'.accepted|
      ensures Whole(issued, w', c, q'.accepted[i]) && (i < |q.accepted| ==> q.accepted[i].flush < p.flush)
    {
      if i < |q.accepted| {
        assert q'.accepted[i] == q.accepted[i];
        assert Whole(issued, w, c, q.accepted[i]);
        assert q.accepted[i].flush in Flushes(q.accepted);
      }
    }
  }

  lemma AcceptedOffers(w: Worker, w': Worker, q: Queue, x: nat, p: Payload)
    requires w.Shaped() && w'.Shaped() && w'.drained == w.drained && p.flush == |w.drained| - 1
    requires forall k :: 0 <= k < |w.drained| ==>
             (OfferedTo(w, k, x) <==> k in Flushes(q.accepted) || k in Missed(q.dropped))
    requires Flushes(q.accepted) !! Missed(q.dropped)
    requires !OfferedTo(w, p.flush, x) && OfferedTo(w', p.flush, x)
    requires forall k :: 0 <= k < p.flush ==> OfferedTo(w', k, x) == OfferedTo(w, k, x)
    ensures forall k :: 0 <= k < |w.drained| ==>
              (OfferedTo(w', k, x) <==> k in Flushes(q.accepted + [p]) || k in Missed(q.dropped))
    ensures p.flush !in Flushes(q.accepted) && Flushes(q.accepted + [p]) !! Missed(q.dropped)
  {
    FlushesAppend(q.accepted, p);
  }

  lemma AcceptedBacklog(q: Queue, p: Payload)
    requires Backlog(q) && |q.items| < SUBSCRIBER_BUFFER
    ensures Backlog(Offered(q, p))
  {
  }

  /** The same with a full queue. */
  lemma MissOk(issued: seq<Origin>, w: Worker, w': Worker, c: nat, q: Queue, x: nat, p: Payload)
    requires w.Shaped() && w'.Shaped() && w'.drained == w.drained && w.drained != []
    requires QueueOk(issued, w, c, q, x) && p.flush == |w.drained| - 1
    requires !OfferedTo(w, p.flush, x) && OfferedTo(w', p.flush, x)
    requires forall k :: 0 <= k < p.flush ==> OfferedTo(w', k, x) == OfferedTo(w, k, x)
    requires |q.items| == SUBSCRIBER_BUFFER
    ensures QueueOk(issued, w', c, Offered(q, p), x)
  {
    MissedAppend(q.dropped, Drop(p.flush, |q.items|));
    forall i | 0 <= i < |q.accepted| ensures Whole(issued, w', c, q.accepted[i]) {
      assert Whole(issued, w, c, q.accepted[i]);
    }
  }

  lemma OfferOk(issued: seq<Origin>, w: Worker, c: nat, q: Queue, x: nat)
    requires WorkerOk(issued, w, c) && w.flusher.Sending? && w.flusher.snap[w.flusher.sent] == x
    requires forall i, j :: 0 <= i < j < |w.flusher.snap| ==> w.flusher.snap[i] != w.flusher.snap[j]
    requires QueueOk(issued, w, c, q, x)
    ensures QueueOk(issued, SentOne(w), c, Offered(q, Payload(|w.drained| - 1, w.flusher.msgs)), x)
  {
    var p := Payload(|w.drained| - 1, w.flusher.msgs);
    OfferAdvances(w, x);
    if |q.items| < SUBSCRIBER_BUFFER {
      AcceptOk(issued, w, SentOne(w), c, q, x, p);
    } else {
      MissOk(issued, w, SentOne(w), c, q, x, p);
    }
  }

  lemma FlushesAppend(ps: seq<Payload>, p: Payload)
    ensures Flushes(ps + [p]) == Flushes(ps) + {p.flush}
  {
    assert (ps + [p])[|ps|] == p;
    forall i | 0 <= i < |ps| ensures ps[i].flush in Flushes(ps + [p]) {
      assert (ps + [p])[i] == ps[i];
    }
  }

  lemma MissedAppend(ds: seq<Drop>, d: Drop)
    ensures Missed(ds + [d]) == Missed(ds) + {d.flush}
  {
    assert (ds + [d])[|ds|] == d;
    forall i | 0 <= i < |ds| ensures ds[i].flush in Missed(ds + [d]) {
      assert (ds + [d])[i] == ds[i];
    }
  }

  lemma SendOneKeeps(workers: seq<Worker>, queues: seq<Queue>, subs: seq<nat>, issued: seq<Origin>, c: nat)
    requires Inv(workers, queues, subs, issued) && c < |workers|
    requires workers[c].Shaped() && workers[c].flusher.Sending?
    requires forall i, j :: 0 <= i < j < |workers[c].flusher.snap| ==>
             workers[c].flusher.snap[i] != workers[c].flusher.snap[j]
    requires workers[c].flusher.snap[workers[c].flusher.sent] < |queues|
             && subs[workers[c].flusher.snap[workers[c].flusher.sent]] == c
    ensures var w := workers[c];
            var x := w.flusher.snap[w.flusher.sent];
            Inv(workers[c := SentOne(w)], queues[x := Offered(queues[x], Payload(|w.drained| - 1, w.flusher.msgs))],
                subs, issued)
  {
    var w := workers[c];
    var x := w.flusher.snap[w.flusher.sent];
    var workers' := workers[c := SentOne(w)];
    var q' := Offered(queues[x], Payload(|w.drained| - 1, w.flusher.msgs));
    assert WorkerOk(issued, w, c) && SnapshotsKnown(w, |queues|);
    SentOk(issued, w, c, x, |queues|);
    OfferOk(issued, w, c, queues[x], x);
    forall i | 0 <= i < |issued| ensures IssuedOk(workers', issued[i]) {
      assert IssuedOk(workers, issued[i]);
    }
    forall d | 0 <= d < |workers'| ensures WorkerOk(issued, workers'[d], d) {
      assert WorkerOk(issued, workers[d], d);
    }
    forall y | 0 <= y < |queues| && y != x ensures QueueOk(issued, workers'[subs[y]], subs[y], queues[y], y) {
      assert issued + [] == issued;
      QueueStays(issued, [], workers[subs[y]], workers'[subs[y]], subs[y], queues[y], y);
    }
  }

  /** What a send does to the sender's own record. */
  lemma SentOk(issued: seq<Origin>, w: Worker, c: nat, x: nat, n: nat)
    requires WorkerOk(issued, w, c) && SnapshotsKnown(w, n) && w.flusher.Sending? && w.flusher.snap[w.flusher.sent] == x
    requires forall i, j :: 0 <= i < j < |w.flusher.snap| ==> w.flusher.snap[i] != w.flusher.snap[j]
    ensures WorkerOk(issued, SentOne(w), c) && SnapshotsKnown(SentOne(w), n) && SentOne(w).drained == w.drained
    ensures forall k, y :: 0 <= k < |w.drained| && y != x ==> OfferedTo(SentOne(w), k, y) == OfferedTo(w, k, y)
  {
    OfferAdvances(w, x);
  }

  lemma ReceiveKeeps(workers: seq<Worker>, queues: seq<Queue>, subs: seq<nat>, issued: seq<Origin>, x: nat, q': Queue)
    requires Inv(workers, queues, subs, issued) && x < |queues|
    requires (queues[x].items != [] && q' == queues[x].(items := queues[x].items[1..]))
          || (q' == queues[x].(closed := q'.closed, left := q'.left))
    ensures Inv(workers, queues[x := q'], subs, issued)
  {
    var queues' := queues[x := q'];
    var q := queues[x];
    assert QueueOk(issued, workers[subs[x]], subs[x], q, x);
    if q'.items != q.items {
      assert q'.items == q.accepted[|q.accepted| - |q'.items|..];
    }
    assert Backlog(q');
    assert QueueOk(issued, workers[subs[x]], subs[x], q', x);
    forall y | 0 <= y < |queues'| ensures QueueOk(issued, workers[subs[y]], subs[y], queues'[y], y) {
      assert QueueOk(issued, workers[subs[y]], subs[y], queues[y], y);
    }
  }

  lemma NewQueueOk(issued: seq<Origin>, w: Worker, c: nat, x: nat)
    requires w.Shaped() && SnapshotsKnown(w, x)
    ensures QueueOk(issued, w, c, NewQueue, x)
  {
    assert Flushes([]) == {} && Missed([]) == {};
    assert NewQueue.accepted[0..] == [];
    forall k | 0 <= k < |w.drained| ensures !OfferedTo(w, k, x) {
      assert w.fates[k].FannedOut? ==> forall i :: 0 <= i < |w.fates[k].snap| ==> w.fates[k].snap[i] != x;
    }
  }

  lemma NewWorkerKeeps(workers: seq<Worker>, queues: seq<Queue>, subs: seq<nat>, issued: seq<Origin>)
    requires Inv(workers, queues, subs, issued)
    ensures Inv(workers + [NewWorker], queues, subs, issued)
  {
  }

  lemma NewQueueKeeps(workers: seq<Worker>, queues: seq<Queue>, subs: seq<nat>, issued: seq<Origin>, c: nat)
    requires Inv(workers, queues, subs, issued) && c < |workers|
    ensures Inv(workers, queues + [NewQueue], subs + [c], issued)
  {
    assert |queues + [NewQueue]| == |queues| + 1 == |subs + [c]|;
    forall d | 0 <= d < |workers| ensures SnapshotsKnown(workers[d], |queues| + 1) {
      KnownStays(workers[d], |queues|);
    }
    NewQueueOk(issued, workers[c], c, |queues|);
    forall x | 0 <= x <= |queues| ensures QueueAt(workers, queues + [NewQueue], subs + [c], issued, x) {
      assert x < |queues| ==> QueueAt(workers, queues, subs, issued, x);
      QueueOneMore(workers, queues, subs, issued, c, x);
    }
    InvFromQueues(workers, queues, subs, issued, queues + [NewQueue], subs + [c]);
  }

  lemma KnownStays(w: Worker, n: nat)
    requires SnapshotsKnown(w, n)
    ensures SnapshotsKnown(w, n + 1)
  {
  }

  /** Inv as far as the queue of x is concerned. */
  ghost predicate QueueAt(workers: seq<Worker>, queues: seq<Queue>, subs: seq<nat>, issued: seq<Origin>, x: nat) {
    && x < |queues| == |subs| && subs[x] < |workers| && workers[subs[x]].Shaped()
    && QueueOk(issued, workers[subs[x]], subs[x], queues[x], x)
  }

  lemma InvFromQueues(workers: seq<Worker>, queues: seq<Queue>, subs: seq<nat>, issued: seq<Origin>,
      queues': seq<Queue>, subs': seq<nat>)
    requires Inv(workers, queues, subs, issued) && |queues'| == |subs'|
    requires forall d :: 0 <= d < |workers| ==> SnapshotsKnown(workers[d], |queues'|)
    requires forall x :: 0 <= x < |queues'| ==> QueueAt(workers, queues', subs', issued, x)
    ensures Inv(workers, queues', subs', issued)
  {
    forall x | 0 <= x < |queues'|
      ensures subs'[x] < |workers| && QueueOk(issued, workers[subs'[x]], subs'[x], queues'[x], x)
    {
      assert QueueAt(workers, queues', subs', issued, x);
    }
  }

  lemma QueueOneMore(workers: seq<Worker>, queues: seq<Queue>, subs: seq<nat>, issued: seq<Origin>, c: nat, x: nat)
    requires |queues| == |subs| && c < |workers| && workers[c].Shaped() && x <= |queues|
    requires x < |queues| ==> QueueAt(workers, queues, subs, issued, x)
    requires x == |queues| ==> QueueOk(issued, workers[c], c, NewQueue, x)
    ensures QueueAt(workers, queues + [NewQueue], subs + [c], issued, x)
  {
    var queues', subs' := queues + [NewQueue], subs + [c];
    if x < |queues| {
      assert queues'[x] == queues[x] && subs'[x] == subs[x];
    } else {
      assert queues'[x] == NewQueue && subs'[x] == c;
    }
  }

  // ----- Whole runs -----

  ghost predicate Delivers(s: Sys) {
    Inv(s.workers, s.queues, s.core.subs, s.issued)
  }

  lemma HubSubscribeKeeps(cfg: Config, s: Sys, id: string)
    requires cfg.Sensible() && HubSafety.Inv(cfg, s) && Delivers(s)
    ensures Delivers(DoSubscribe(cfg, s, id))
  {
    HubCore.SubscribeKeeps(cfg, s.core, id);
    SubscribeAdds(cfg, s.core, id);
    var s' := DoSubscribe(cfg, s, id);
    if |s'.queues| > |s.queues| {
      var c := s'.core.subs[|s.queues|];
      assert s'.core.subs == s.core.subs + [c];
      assert c < |s'.core.chans|;
      if |s'.workers| > |s.workers| {
        NewWorkerKeeps(s.workers, s.queues, s.core.subs, s.issued);
      }
      NewQueueKeeps(s'.workers, s.queues, s.core.subs, s.issued, c);
    }
  }

  lemma HubSendOneKeeps(cfg: Config, s: Sys, c: nat)
    requires HubSafety.Inv(cfg, s) && Delivers(s) && Enabled(s, SendOne(c))
    ensures Delivers(DoSendOne(s, c))
  {
    assert HubSafety.SnapshotOk(s, c) && s.SnapshotInRange(c);
    var x := s.workers[c].flusher.snap[s.workers[c].flusher.sent];
    HubSafety.AliveMeansCounted(s, c);
    assert HubSafety.QueueOk(s, x);
    SendOneDelivers(s, c, x);
  }

  lemma SendOneDelivers(s: Sys, c: nat, x: nat)
    requires s.Shaped() && Delivers(s) && c < |s.workers| && s.workers[c].flusher.Sending?
    requires x < |s.queues| && x == s.workers[c].flusher.snap[s.workers[c].flusher.sent] && !s.queues[x].closed
    requires forall i :: 0 <= i < |s.workers[c].flusher.snap| ==>
               s.workers[c].flusher.snap[i] < |s.core.subs| && s.core.subs[s.workers[c].flusher.snap[i]] == c
    requires forall i, j :: 0 <= i < j < |s.workers[c].flusher.snap| ==>
             s.workers[c].flusher.snap[i] != s.workers[c].flusher.snap[j]
    ensures Delivers(DoSendOne(s, c))
  {
    SendOneKeeps(s.workers, s.queues, s.core.subs, s.issued, c);
  }

  lemma WorkerLabelKeeps(cfg: Config, s: Sys, l: Label)
    requires s.Shaped() && Delivers(s) && Enabled(s, l) && (l.Push? || l.Drain? || l.IngestExits? || l.FlusherExits?)
    ensures Delivers(Apply(cfg, s, l))
  {
    if l.Push? {
      PushKeeps(s.workers, s.queues, s.core.subs, s.issued, l.ch, l.m);
    } else if l.Drain? {
      DrainKeeps(s.workers, s.queues, s.core.subs, s.issued, l.ch);
    } else {
      ExitKeeps(s.workers, s.queues, s.core.subs, s.issued, l.ch, Apply(cfg, s, l).workers[l.ch]);
    }
  }

  lemma SnapshotLabelKeeps(cfg: Config, s: Sys, c: nat, order: seq<nat>)
    requires s.Shaped() && Delivers(s) && Enabled(s, Label.Snapshot(c, order))
    ensures Delivers(Apply(cfg, s, Label.Snapshot(c, order)))
  {
    SnapshotKeeps(s.workers, s.queues, s.core.subs, s.issued, c, order);
  }

  lemma BuildLabelKeeps(cfg: Config, s: Sys, c: nat, answer: Option<Resolution>)
    requires s.Shaped() && Delivers(s) && Enabled(s, BuildOne(c, answer))
    ensures Delivers(Apply(cfg, s, BuildOne(c, answer)))
  {
    BuildOneKeeps(s.workers, s.queues, s.core.subs, s.issued, c, answer);
  }

  lemma EncodeLabelKeeps(cfg: Config, s: Sys, c: nat, ok: bool)
    requires s.Shaped() && Delivers(s) && Enabled(s, Encode(c, ok))
    ensures Delivers(Apply(cfg, s, Encode(c, ok)))
  {
    EncodeKeeps(s.workers, s.queues, s.core.subs, s.issued, c, ok);
  }

  lemma QueueLabelKeeps(cfg: Config, s: Sys, l: Label)
    requires HubSafety.Inv(cfg, s) && Delivers(s) && Enabled(s, l)
    requires l.Unsubscribe? || l.Receive? || l.CloseQueue?
    ensures Delivers(Apply(cfg, s, l))
  {
    assert HubSafety.QueueOk(s, l.sub);
    var s' := Apply(cfg, s, l);
    assert s'.core.subs == s.core.subs;
    ReceiveKeeps(s.workers, s.queues, s.core.subs, s.issued, l.sub, s'.queues[l.sub]);
  }

  lemma StepKeeps(cfg: Config, s: Sys, l: Label)
    requires cfg.Sensible() && HubSafety.Inv(cfg, s) && Delivers(s) && Enabled(s, l)
    ensures Delivers(Apply(cfg, s, l))
  {
    if l.Subscribe? {
      HubSubscribeKeeps(cfg, s, l.id);
    } else if l.SendOne? {
      HubSendOneKeeps(cfg, s, l.ch);
    } else if l.Unsubscribe? || l.Receive? || l.CloseQueue? {
      QueueLabelKeeps(cfg, s, l);
    } else if l.TimerFires? || l.TimerRuns? || l.CloseLocks? || l.CloseCancels? || l.WaitReturns? {
      var s' := Apply(cfg, s, l);
      assert s'.workers == s.workers && s'.queues == s.queues && s'.core.subs == s.core.subs && s'.issued == s.issued;
    } else if l.Snapshot? {
      SnapshotLabelKeeps(cfg, s, l.ch, l.order);
    } else if l.BuildOne? {
      BuildLabelKeeps(cfg, s, l.ch, l.answer);
    } else if l.Encode? {
      EncodeLabelKeeps(cfg, s, l.ch, l.ok);
    } else {
      WorkerLabelKeeps(cfg, s, l);
    }
  }

  lemma {:induction false} RunInv(cfg: Config, run: seq<Sys>, labels: seq<Label>, n: nat)
    requires cfg.Sensible() && IsRun(cfg, run, labels) && n < |run|
    ensures Delivers(run[n])
  {
    if n > 0 {
      RunInv(cfg, run, labels, n - 1);
      HubSafety.RunInv(cfg, run, labels, n - 1);
      assert Next(cfg, run[n - 1], labels[n - 1], run[n]);
      StepKeeps(cfg, run[n - 1], labels[n - 1]);
    }
  }
}

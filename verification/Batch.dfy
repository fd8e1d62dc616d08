/**
 * Building one SSE batch (buildBatch in internal/realtime/hub.go): the 200-message cap, one
 * resolver call per sender, and message ids from the hub's counter.
 */
module Batch {
  import opened Wrappers
  import opened ResolverTypes

  const MAX_BATCH := 200

  /** How many batches wait for a slow widget before it misses one. */
  const SUBSCRIBER_BUFFER := 64

  datatype ChatMessage = ChatMessage(sender: string, nickname: string, content: string,
                                         emojis: Option<map<string, string>>)

  datatype BatchMessage = BatchMessage(id: int, text: string, emojis: map<string, string>, result: Resolution,
                                           nickname: string)

  function Cut(raw: seq<ChatMessage>): seq<ChatMessage> {
    if |raw| > MAX_BATCH then raw[..MAX_BATCH] else raw
  }

  /** None is a resolver error: the sender is shown as unlinked in this batch. */
  function Degrade(answer: Option<Resolution>): Resolution {
    match answer
    case Some(res) => res
    case None => UNLINKED
  }

  /** The memo wins over a fresh answer. */
  function Lookup(seen: map<string, Resolution>, sender: string, answer: Option<Resolution>): Resolution {
    if sender in seen then seen[sender] else Degrade(answer)
  }

  function Line(id: int, m: ChatMessage, result: Resolution): BatchMessage {
    BatchMessage(id, m.content, if m.emojis.Some? then m.emojis.value else map[], result, m.nickname)
  }

  /** Where the sender of message i first speaks in the batch. */
  function FirstOf(raw: seq<ChatMessage>, i: nat): (f: nat)
    requires i < |raw|
    ensures f <= i
  {
    FirstFrom(raw, raw[i].sender, 0, i)
  }

  /** The first message from from to last whose sender is sender, or last. */
  function FirstFrom(raw: seq<ChatMessage>, sender: string, from: nat, last: nat): (f: nat)
    requires from <= last < |raw|
    ensures from <= f <= last
    decreases last - from
  {
    if from == last || raw[from].sender == sender then from else FirstFrom(raw, sender, from + 1, last)
  }

  lemma {:induction false} FirstFromIsFirst(raw: seq<ChatMessage>, from: nat, i: nat, f: nat)
    requires from <= f <= i < |raw|
    requires raw[f].sender == raw[i].sender
    requires forall j :: from <= j < f ==> raw[j].sender != raw[i].sender
    ensures FirstFrom(raw, raw[i].sender, from, i) == f
    decreases f - from
  {
    if from < f {
      FirstFromIsFirst(raw, from + 1, i, f);
    }
  }

  lemma {:induction false} FirstFromFinds(raw: seq<ChatMessage>, from: nat, i: nat)
    requires from <= i < |raw|
    ensures var f := FirstFrom(raw, raw[i].sender, from, i);
            && raw[f].sender == raw[i].sender
            && forall j :: from <= j < f ==> raw[j].sender != raw[i].sender
    decreases i - from
  {
    if from < i && raw[from].sender != raw[i].sender {
      FirstFromFinds(raw, from + 1, i);
    }
  }

  /**
   * How message i is shown, for a resolver that answers resolve(j, sender) when asked at message j:
   * as its sender was answered at the sender's first message.
   */
  function Shown(raw: seq<ChatMessage>, resolve: (nat, string) -> Option<Resolution>, i: nat): Resolution
    requires i < |raw|
  {
    Degrade(resolve(FirstOf(raw, i), raw[i].sender))
  }

  lemma SameSenderSameShown(raw: seq<ChatMessage>, resolve: (nat, string) -> Option<Resolution>, i: nat, j: nat)
    requires i < |raw| && j < |raw| && raw[i].sender == raw[j].sender
    ensures Shown(raw, resolve, i) == Shown(raw, resolve, j)
  {
    FirstFromFinds(raw, 0, i);
    FirstFromIsFirst(raw, 0, j, FirstOf(raw, i));
  }

  ghost predicate Spoke(raw: seq<ChatMessage>, n: nat, sender: string) {
    exists i :: 0 <= i < n && i < |raw| && raw[i].sender == sender
  }

  /** msgs shows its first |msgs| messages as a batch should. */
  ghost predicate ShownSoFar(raw: seq<ChatMessage>, resolve: (nat, string) -> Option<Resolution>, last: int,
      msgs: seq<BatchMessage>)
  {
    && |msgs| <= |raw|
    && forall j :: 0 <= j < |msgs| ==> msgs[j] == Line(last + j + 1, raw[j], Shown(raw, resolve, j))
  }

  /** The first min(|raw|, 200) messages, under consecutive ids after last. */
  ghost predicate IsBatch(raw: seq<ChatMessage>, resolve: (nat, string) -> Option<Resolution>, last: int,
      msgs: seq<BatchMessage>)
  {
    |msgs| == |Cut(raw)| && ShownSoFar(raw, resolve, last, msgs)
  }

  // ----- A batch field by field -----

  /** Message f is the first of its sender, who also sent message j. */
  ghost predicate FirstBy(raw: seq<ChatMessage>, f: nat, j: nat) {
    && f <= j < |raw| && raw[f].sender == raw[j].sender
    && forall i :: 0 <= i < f ==> raw[i].sender != raw[j].sender
  }

  /** b carries the message m: its content as the text, and its emoji addresses, if only an empty map. */
  predicate Carries(b: BatchMessage, m: ChatMessage) {
    && b.text == m.content && b.nickname == m.nickname
    && b.emojis == (match m.emojis case Some(addresses) => addresses case None => map[])
  }

  /** res is the answer, or that of a sender without a link if there was an error. */
  predicate IsAnswer(res: Resolution, answer: Option<Resolution>) {
    match answer
    case Some(given) => res == given
    case None => res.status == Unlinked && res.badge == None
  }

  /** Line j of the batch: numbered, carrying message j, with the answer at its sender's first message. */
  ghost predicate LineOk(raw: seq<ChatMessage>, resolve: (nat, string) -> Option<Resolution>, last: int,
      msgs: seq<BatchMessage>, j: nat)
    requires j < |msgs| <= |raw|
  {
    && msgs[j].id == last + j + 1 && Carries(msgs[j], raw[j])
    && exists f :: FirstBy(raw, f, j) && IsAnswer(msgs[j].result, resolve(f, raw[j].sender))
  }

  ghost predicate FieldsOk(raw: seq<ChatMessage>, resolve: (nat, string) -> Option<Resolution>, last: int,
      msgs: seq<BatchMessage>)
  {
    && |msgs| == (if |raw| > 200 then 200 else |raw|)
    && forall j :: 0 <= j < |msgs| ==> LineOk(raw, resolve, last, msgs, j)
  }

  /** What a batch holds, spelled out. */
  lemma BatchFields(raw: seq<ChatMessage>, resolve: (nat, string) -> Option<Resolution>, last: int,
      msgs: seq<BatchMessage>)
    ensures IsBatch(raw, resolve, last, msgs) <==> FieldsOk(raw, resolve, last, msgs)
  {
    if |msgs| == |Cut(raw)| {
      forall j | 0 <= j < |msgs|
        ensures LineOk(raw, resolve, last, msgs, j) <==>
                msgs[j] == Line(last + j + 1, raw[j], Shown(raw, resolve, j))
      {
        LineFields(raw, resolve, last, msgs, j);
      }
    }
  }

  lemma LineFields(raw: seq<ChatMessage>, resolve: (nat, string) -> Option<Resolution>, last: int,
      msgs: seq<BatchMessage>, j: nat)
    requires j < |msgs| <= |raw|
    ensures LineOk(raw, resolve, last, msgs, j) <==> msgs[j] == Line(last + j + 1, raw[j], Shown(raw, resolve, j))
  {
    FirstFromFinds(raw, 0, j);
    assert FirstBy(raw, FirstOf(raw, j), j);
    forall f | FirstBy(raw, f, j) ensures f == FirstOf(raw, j) {
      FirstFromIsFirst(raw, 0, j, f);
    }
  }

  /** The memo holds an answer for exactly the senders before message i, and the right one. */
  ghost predicate Memo(raw: seq<ChatMessage>, resolve: (nat, string) -> Option<Resolution>, i: nat,
      seen: map<string, Resolution>)
  {
    && i <= |raw|
    && (forall j :: 0 <= j < i ==> raw[j].sender in seen && seen[raw[j].sender] == Shown(raw, resolve, j))
    && (forall sender <- seen :: Spoke(raw, i, sender))
  }

  lemma LookupIsShown(raw: seq<ChatMessage>, resolve: (nat, string) -> Option<Resolution>, i: nat,
      seen: map<string, Resolution>)
    requires Memo(raw, resolve, i, seen) && i < |raw|
    ensures Lookup(seen, raw[i].sender, resolve(i, raw[i].sender)) == Shown(raw, resolve, i)
  {
    var sender := raw[i].sender;
    if sender in seen {
      assert Spoke(raw, i, sender);
      var j :| 0 <= j < i && raw[j].sender == sender;
      SameSenderSameShown(raw, resolve, i, j);
    } else {
      FirstFromIsFirst(raw, 0, i, i);
    }
  }

  lemma MemoStep(raw: seq<ChatMessage>, resolve: (nat, string) -> Option<Resolution>, i: nat,
      seen: map<string, Resolution>)
    requires Memo(raw, resolve, i, seen) && i < |raw|
    ensures Memo(raw, resolve, i + 1, seen[raw[i].sender := Shown(raw, resolve, i)])
  {
    var seen' := seen[raw[i].sender := Shown(raw, resolve, i)];
    forall j | 0 <= j < i + 1
      ensures raw[j].sender in seen' && seen'[raw[j].sender] == Shown(raw, resolve, j)
    {
      if raw[j].sender == raw[i].sender {
        SameSenderSameShown(raw, resolve, i, j);
      }
    }
    forall other <- seen' ensures Spoke(raw, i + 1, other) {
      if other != raw[i].sender {
        assert Spoke(raw, i, other);
      }
    }
  }

  lemma ShownStep(raw: seq<ChatMessage>, resolve: (nat, string) -> Option<Resolution>, last: int,
      msgs: seq<BatchMessage>)
    requires ShownSoFar(raw, resolve, last, msgs) && |msgs| < |raw|
    ensures ShownSoFar(raw, resolve, last, msgs + [Line(last + |msgs| + 1, raw[|msgs|], Shown(raw, resolve, |msgs|))])
  {
  }

  lemma MemoKnowsSpeakers(raw: seq<ChatMessage>, resolve: (nat, string) -> Option<Resolution>, i: nat,
      seen: map<string, Resolution>)
    requires Memo(raw, resolve, i, seen)
    ensures forall sender :: sender in seen <==> Spoke(raw, i, sender)
  {
  }

  /** The batch without a memo: every message resolved on its own. */
  function Plain(raw: seq<ChatMessage>, resolve: string -> Option<Resolution>, last: int): (msgs: seq<BatchMessage>)
    ensures |msgs| == |Cut(raw)|
    ensures forall i :: 0 <= i < |msgs| ==> msgs[i] == Line(last + i + 1, raw[i], Degrade(resolve(raw[i].sender)))
  {
    seq(|Cut(raw)|, i requires 0 <= i < |Cut(raw)| => Line(last + i + 1, raw[i], Degrade(resolve(raw[i].sender))))
  }

  /** With a resolver that is consistent during the batch, remembering answers changes nothing. */
  lemma MemoIsInvisible(raw: seq<ChatMessage>, resolve: (nat, string) -> Option<Resolution>,
      steady: string -> Option<Resolution>,
                        last: int, msgs: seq<BatchMessage>)
    requires forall i, sender :: resolve(i, sender) == steady(sender)
    ensures IsBatch(raw, resolve, last, msgs) <==> msgs == Plain(raw, steady, last)
  {
  }
}

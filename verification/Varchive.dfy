/**
 * The V-ARCHIVE client (internal/varchive/varchive.go): the slots that bound its requests in flight,
 * and the fan-out that fetches one class per button.
 */
module Varchive {
  import opened Sequences
  import opened Wrappers
  import Coherence
  import Store

  const MAX_IN_FLIGHT := 8

  // ----- Slots -----

  /** A get: waiting for a slot, in flight, returned, or given up while it waited. */
  datatype Request = Waiting | InFlight | Returned | GivenUp

  /** taken is how many slots of the semaphore are taken. */
  datatype Slots = Slots(requests: seq<Request>, taken: int)

  /** Any caller may begin a get at any time; a waiting one may also see its context end. */
  datatype Step = Begin | Acquire(i: nat) | GiveUp(i: nat) | Return(i: nat)

  predicate Enabled(s: Slots, step: Step) {
    match step
    case Begin => true
    case Acquire(i) => i < |s.requests| && s.requests[i].Waiting? && s.taken < MAX_IN_FLIGHT
    case GiveUp(i) => i < |s.requests| && s.requests[i].Waiting?
    case Return(i) => i < |s.requests| && s.requests[i].InFlight?
  }

  function Apply(s: Slots, step: Step): Slots
    requires Enabled(s, step)
  {
    match step
    case Begin => s.(requests := s.requests + [Waiting])
    case Acquire(i) => Slots(s.requests[i := InFlight], s.taken + 1)
    case GiveUp(i) => s.(requests := s.requests[i := GivenUp])
    case Return(i) => Slots(s.requests[i := Returned], s.taken - 1)
  }

  predicate IsRun(s: Slots, steps: seq<Step>)
    decreases |steps|
  {
    steps == [] || (Enabled(s, steps[0]) && IsRun(Apply(s, steps[0]), steps[1..]))
  }

  function Run(s: Slots, steps: seq<Step>): Slots
    requires IsRun(s, steps)
    decreases |steps|
  {
    if steps == [] then s else Run(Apply(s, steps[0]), steps[1..])
  }

  function Load(r: Request): int {
    if r.InFlight? then 1 else 0
  }

  function Loads(rs: seq<Request>): (ls: seq<int>)
    ensures |ls| == |rs| && forall i :: 0 <= i < |rs| ==> ls[i] == Load(rs[i])
  {
    seq(|rs|, i requires 0 <= i < |rs| => Load(rs[i]))
  }

  /** How many requests are in flight. */
  function Flying(rs: seq<Request>): int {
    Sum(Loads(rs))
  }

  lemma FlyingUpdate(rs: seq<Request>, i: nat, r: Request)
    requires i < |rs|
    ensures Flying(rs[i := r]) == Flying(rs) - Load(rs[i]) + Load(r)
  {
    assert Loads(rs[i := r]) == Loads(rs)[i := Load(r)];
    SumUpdate(Loads(rs), i, Load(r));
  }

  lemma SlotsStep(s: Slots, step: Step)
    requires Enabled(s, step) && s.taken == Flying(s.requests) <= MAX_IN_FLIGHT
    ensures Apply(s, step).taken == Flying(Apply(s, step).requests) <= MAX_IN_FLIGHT
  {
    match step
    case Begin =>
      assert Loads(s.requests + [Waiting]) == Loads(s.requests) + [0];
      SumConcat(Loads(s.requests), [0]);
    case Acquire(i) => FlyingUpdate(s.requests, i, InFlight);
    case GiveUp(i) => FlyingUpdate(s.requests, i, GivenUp);
    case Return(i) => FlyingUpdate(s.requests, i, Returned);
  }

  lemma {:induction false} SlotsRun(s: Slots, steps: seq<Step>)
    requires IsRun(s, steps) && s.taken == Flying(s.requests) <= MAX_IN_FLIGHT
    ensures Run(s, steps).taken == Flying(Run(s, steps).requests) <= MAX_IN_FLIGHT
    decreases |steps|
  {
    if steps != [] {
      SlotsStep(s, steps[0]);
      SlotsRun(Apply(s, steps[0]), steps[1..]);
    }
  }

  /**
   * For any number of callers and any interleaving the slots taken are exactly the requests in flight,
   * and never more than eight, and a waiting one gets a slot as long as there are fewer; a request that
   * gave up while waiting holds none, and one that returns never waits to give its slot back.
   */
  lemma SlotsAreRequestsInFlight(steps: seq<Step>)
    requires IsRun(Slots([], 0), steps)
    ensures var s := Run(Slots([], 0), steps);
            && s.taken == Flying(s.requests)
            && 0 <= s.taken <= 8
            && (forall i :: 0 <= i < |s.requests| && Enabled(s, Return(i)) ==> s.taken >= 1)
            && forall i: nat :: i < |s.requests| && s.requests[i].Waiting? ==>
                 (Enabled(s, Acquire(i)) <==> Flying(s.requests) < 8)
  {
    SlotsRun(Slots([], 0), steps);
    var s := Run(Slots([], 0), steps);
    if i :| 0 <= i < |s.requests| && s.requests[i].InFlight? {
      FlyingUpdate(s.requests, i, Waiting);
      FlyingIsNatural(s.requests[i := Waiting]);
    }
    FlyingIsNatural(s.requests);
  }

  lemma FlyingIsNatural(rs: seq<Request>)
    ensures Flying(rs) >= 0
  {
    if rs != [] {
      SumBoundsTerm(Loads(rs), 0);
    }
  }

  // ----- Fan-out -----

  const BUTTONS: seq<int> := [4, 5, 6, 8]

  datatype Body = Body(success: bool, djClass: string, powerSum: Option<real>, maxPower: Option<real>,
      conversion: Option<real>)

  /** How one get ended; body is None if it is not the expected JSON. */
  datatype Reply = Failed | Response(status: int, body: Option<Body>)

  /** The class for one button: the outcome is an error only if the request failed. */
  function DjClassFor(button: int, reply: Reply): Result<Option<Store.ClassRow>, ()> {
    match reply
    case Failed => Err(())
    case Response(status, body) =>
      Ok(if status != 200 || body.None? || !body.value.success || body.value.djClass == "" then None
         else Some(Store.ClassRow(button, body.value.djClass, body.value.powerSum, body.value.maxPower,
             body.value.conversion)))
  }

  /** Whatever goes wrong with one button, it only lacks a class. */
  function ClassOrNone(button: int, reply: Reply): Option<Store.ClassRow> {
    match DjClassFor(button, reply)
    case Ok(c) => c
    case Err(_) => None
  }

  /** One button after the other. */
  function Sequential(buttons: seq<int>, reply: int -> Reply): seq<Store.ClassRow> {
    if buttons == [] then []
    else
      var n := |buttons| - 1;
      Sequential(buttons[..n], reply) +
      match ClassOrNone(buttons[n], reply(buttons[n]))
      case Some(c) => [c]
      case None => []
  }

  /** order is the order in which the requests, one per button, complete. */
  predicate CompletionOrder(order: seq<nat>) {
    && (forall k :: 0 <= k < |order| ==> order[k] < |BUTTONS|)
    && (forall j, k :: 0 <= j < k < |order| ==> order[j] != order[k])
    && (forall i :: 0 <= i < |BUTTONS| ==> i in order)
  }

  /** Each request fills its own slot when it completes; the classes are then read off in button order. */
  method AllDjClasses(reply: int -> Reply, order: seq<nat>) returns (out: seq<Store.ClassRow>)
    requires CompletionOrder(order)
    ensures out == Sequential(BUTTONS, reply)
    ensures Coherence.IsFetch(out)
  {
    var results := new Option<Store.ClassRow>[|BUTTONS|](_ => None);
    Fill(results, reply, order);
    out := [];
    for i := 0 to results.Length
      invariant out == Sequential(BUTTONS[..i], reply)
    {
      assert BUTTONS[..i + 1][..i] == BUTTONS[..i];
      if results[i].Some? {
        out := out + [results[i].value];
      }
    }
    assert BUTTONS[..|BUTTONS|] == BUTTONS;
    SequentialIsFetch(BUTTONS, reply);
  }

  method Fill(results: array<Option<Store.ClassRow>>, reply: int -> Reply, order: seq<nat>)
    requires results.Length == |BUTTONS| && CompletionOrder(order)
    requires forall i :: 0 <= i < |BUTTONS| ==> results[i] == None
    modifies results
    ensures forall i :: 0 <= i < |BUTTONS| ==> results[i] == ClassOrNone(BUTTONS[i], reply(BUTTONS[i]))
  {
    for k := 0 to |order|
      invariant forall i :: 0 <= i < |BUTTONS| ==>
                  results[i] == if i in order[..k] then ClassOrNone(BUTTONS[i], reply(BUTTONS[i])) else None
    {
      var i := order[k];
      assert order[..k + 1] == order[..k] + [i];
      var outcome := DjClassFor(BUTTONS[i], reply(BUTTONS[i]));
      if outcome.Ok? && outcome.value.Some? {
        results[i] := outcome.value;
      }
    }
    assert order[..|order|] == order;
  }

  predicate Rising(buttons: seq<int>) {
    && (forall i :: 0 <= i < |buttons| ==> Store.RealButton(buttons[i]))
    && (forall i, j :: 0 <= i < j < |buttons| ==> buttons[i] < buttons[j])
  }

  /** The buttons of some classes. */
  function ButtonsOf(cs: seq<Store.ClassRow>): (bs: seq<int>)
    ensures |bs| == |cs| && forall i :: 0 <= i < |cs| ==> bs[i] == cs[i].button
  {
    seq(|cs|, i requires 0 <= i < |cs| => cs[i].button)
  }

  /** What one more button adds. */
  lemma SequentialStep(buttons: seq<int>, reply: int -> Reply)
    returns (before: seq<Store.ClassRow>, last: seq<Store.ClassRow>)
    requires buttons != []
    ensures var b := buttons[|buttons| - 1];
            && before == Sequential(buttons[..|buttons| - 1], reply)
            && Sequential(buttons, reply) == before + last
            && last == (match ClassOrNone(b, reply(b)) case Some(c) => [c] case None => [])
            && forall i :: 0 <= i < |last| ==> last[i].button == b
  {
    var b := buttons[|buttons| - 1];
    before := Sequential(buttons[..|buttons| - 1], reply);
    last := match ClassOrNone(b, reply(b)) case Some(c) => [c] case None => [];
  }

  /** Each class of a fetch is what its own request said, and none is missing. */
  lemma {:induction false} SequentialHas(buttons: seq<int>, reply: int -> Reply, c: Store.ClassRow)
    ensures c in Sequential(buttons, reply) <==>
            c.button in buttons && ClassOrNone(c.button, reply(c.button)) == Some(c)
  {
    if buttons != [] {
      var n := |buttons| - 1;
      var before, last := SequentialStep(buttons, reply);
      SequentialHas(buttons[..n], reply, c);
      assert buttons == buttons[..n] + [buttons[n]];
    }
  }

  /**
   * Which classes a fetch has, spelled out: those of the buttons whose request was answered by status 200 and a
   * body that reports success and a class, with that body's figures.
   */
  lemma FetchedExactly(buttons: seq<int>, reply: int -> Reply, c: Store.ClassRow)
    ensures c in Sequential(buttons, reply) <==>
            && c.button in buttons
            && match reply(c.button)
               case Failed => false
               case Response(status, body) =>
                 && status == 200 && body.Some? && body.value.success && body.value.djClass != ""
                 && c.class_ == body.value.djClass && c.powerSum == body.value.powerSum
                 && c.maxPower == body.value.maxPower && c.conversion == body.value.conversion
  {
    SequentialHas(buttons, reply, c);
  }

  lemma {:induction false} SequentialRises(buttons: seq<int>, reply: int -> Reply)
    requires Rising(buttons)
    ensures Rising(ButtonsOf(Sequential(buttons, reply)))
  {
    if buttons != [] {
      var n := |buttons| - 1;
      var before, last := SequentialStep(buttons, reply);
      SequentialRises(buttons[..n], reply);
      forall i | 0 <= i < |before| ensures before[i].button < buttons[n] {
        SequentialHas(buttons[..n], reply, before[i]);
        assert before[i] in before;
      }
      assert ButtonsOf(before + last) == ButtonsOf(before) + ButtonsOf(last);
    }
  }

  /** A fetch gives at most one class per button, in button order. */
  lemma SequentialIsFetch(buttons: seq<int>, reply: int -> Reply)
    requires Rising(buttons)
    ensures Coherence.IsFetch(Sequential(buttons, reply))
  {
    SequentialRises(buttons, reply);
    var out := Sequential(buttons, reply);
    assert forall i :: 0 <= i < |out| ==> ButtonsOf(out)[i] == out[i].button;
  }

  /** The buttons fetched are a subsequence of 4, 5, 6, 8. */
  lemma {:induction false} FetchIsSubsequence(buttons: seq<int>, reply: int -> Reply)
    ensures Subsequence(ButtonsOf(Sequential(buttons, reply)), buttons)
  {
    if buttons != [] {
      var n := |buttons| - 1;
      var b := buttons[n];
      FetchIsSubsequence(buttons[..n], reply);
      var before, out := Sequential(buttons[..n], reply), Sequential(buttons, reply);
      assert buttons == buttons[..n] + [b];
      if ClassOrNone(b, reply(b)).Some? {
        assert ButtonsOf(out) == ButtonsOf(before) + [b];
        SubsequenceAppends(ButtonsOf(before), buttons[..n], b);
      } else {
        assert out == before;
        SubsequenceExtends(ButtonsOf(before), buttons[..n], [b]);
      }
    }
  }
}

/**
 * The sessions that ingest runs one after the other, and the subscribe tasks they start (session and
 * subscribe in internal/realtime/ingest.go), as steps that interleave. Each session fetches a URL,
 * dials it, and then runs the socket until its own context or the parent's ends, or the socket does.
 */
module Session {
  import opened Wrappers

  const SUBSCRIBE_ATTEMPTS: nat := 3

  /** Why a session's context ended: the parent's did, or one of the two calls of fail. */
  datatype Cause = Parent | NoSessionKey | SubscribeFailed(task: nat)

  datatype Result = Failed(reason: string) | SocketEnded(reason: string) | FailedBy(cause: Cause)

  /** url is the number of the fetch that the session's URL came from. */
  datatype Stage = NeedToken | NeedUrl | NeedDial(url: nat) | Live | Over(result: Result)

  /** Calling and Sleeping carry the attempt; Stopped is the silent return when the context has ended. */
  datatype Progress = Calling(attempt: nat) | Sleeping(attempt: nat) | Subscribed | Stopped | GaveUp

  /** One connected event's subscribe task; calls counts its SubscribeChat calls. */
  datatype Task = Task(session: nat, progress: Progress, calls: nat)

  datatype Op = Fetched(session: nat, url: nat) | Dialed(session: nat, url: nat)

  /** cause is the cause of the current session's context; sessions before it have ended theirs. */
  datatype State = State(
    session: nat, stage: Stage, parentEnded: bool, cause: Option<Cause>, tasks: seq<Task>, fetches: nat, log: seq<Op>)

  datatype Step =
    | TokenReady
    | UrlFetched
    | DialOk
    | SetupFails(reason: string)
    | Connected(key: string)
    | CallReturns(task: nat, ok: bool)
    | Wakes(task: nat)
    | ParentEnds
    | RunReturns(reason: string)
    | NextSession

  const INIT := State(0, NeedToken, false, None, [], 0, [])

  /** The context that a session's tasks run under has ended. */
  predicate Ended(s: State, session: nat) {
    session < s.session || s.stage.Over? || s.cause.Some?
  }

  predicate Enabled(s: State, step: Step) {
    match step
    case TokenReady => s.stage == NeedToken
    case UrlFetched => s.stage == NeedUrl
    case DialOk => s.stage.NeedDial?
    case SetupFails(_) => s.stage.NeedToken? || s.stage.NeedUrl? || s.stage.NeedDial?
    case Connected(_) => s.stage == Live
    case CallReturns(i, _) => i < |s.tasks| && s.tasks[i].progress.Calling?
    case Wakes(i) => i < |s.tasks| && s.tasks[i].progress.Sleeping?
    case ParentEnds => !s.parentEnded
    case RunReturns(_) => s.stage == Live
    case NextSession => s.stage.Over? && !s.parentEnded
  }

  /** The first cancellation is the one that counts. */
  function Fail(s: State, cause: Cause): State {
    if s.cause.None? then s.(cause := Some(cause)) else s
  }

  function Progressed(s: State, i: nat, p: Progress): State
    requires i < |s.tasks|
  {
    s.(tasks := s.tasks[i := s.tasks[i].(progress := p)])
  }

  /** Where a task stands after call number attempt. */
  function AfterCall(attempt: nat, ok: bool, ended: bool): Progress {
    if ok then Subscribed
    else if ended then Stopped
    else if attempt == SUBSCRIBE_ATTEMPTS then GaveUp
    else Sleeping(attempt)
  }

  /** After a SubscribeChat call of task i. */
  function Answered(s: State, i: nat, ok: bool): State
    requires i < |s.tasks| && s.tasks[i].progress.Calling?
  {
    var p := AfterCall(s.tasks[i].progress.attempt, ok, Ended(s, s.tasks[i].session));
    if p == GaveUp then Fail(Progressed(s, i, p), SubscribeFailed(i)) else Progressed(s, i, p)
  }

  /** What session returns once the socket's Run has: its own cause comes first while the parent lives. */
  function ResultOf(s: State, reason: string): Result {
    if s.cause.Some? && !s.parentEnded then FailedBy(s.cause.value) else SocketEnded(reason)
  }

  function Apply(s: State, step: Step): State
    requires Enabled(s, step)
  {
    match step
    case TokenReady => s.(stage := NeedUrl)
    case UrlFetched =>
      s.(stage := NeedDial(s.fetches), fetches := s.fetches + 1, log := s.log + [Fetched(s.session, s.fetches)])
    case DialOk =>
      s.(stage := Live,
         cause := if s.parentEnded then Some(Parent) else None,
         log := s.log + [Dialed(s.session, s.stage.url)])
    case SetupFails(reason) =>
      s.(stage := Over(Failed(reason)),
         log := if s.stage.NeedDial? then s.log + [Dialed(s.session, s.stage.url)] else s.log)
    case Connected(key) =>
      if key == "" then Fail(s, NoSessionKey)
      else s.(tasks := s.tasks + [Task(s.session, Calling(1), 1)])
    case CallReturns(i, ok) => Answered(s, i, ok)
    case Wakes(i) =>
      var t := s.tasks[i];
      s.(tasks := s.tasks[i := Task(t.session, Calling(t.progress.attempt + 1), t.calls + 1)])
    case ParentEnds => (if s.stage == Live then Fail(s, Parent) else s).(parentEnded := true)
    case RunReturns(reason) => s.(stage := Over(ResultOf(s, reason)))
    case NextSession => s.(session := s.session + 1, stage := NeedToken, cause := None)
  }

  /**
   * One subscribe task on its own: answers(a) is the outcome of its call number a, and ended(a) whether
   * its context had ended when that call returned. waits lists what it sleeps between the calls.
   */
  method Subscribe(answers: nat -> bool, ended: nat -> bool, minBackoff: int)
    returns (outcome: Progress, calls: nat, waits: seq<int>)
    ensures 1 <= calls <= SUBSCRIBE_ATTEMPTS
    ensures forall a :: 1 <= a < calls ==> !answers(a) && !ended(a)
    ensures outcome == AfterCall(calls, answers(calls), ended(calls))
    ensures outcome.Subscribed? <==> answers(calls)
    ensures outcome.Stopped? <==> !answers(calls) && ended(calls)
    ensures outcome.GaveUp? <==> calls == 3 && !answers(3) && !ended(3)
    ensures outcome.Subscribed? || outcome.Stopped? || outcome.GaveUp?
    ensures |waits| == calls - 1 && forall a :: 1 <= a < calls ==> waits[a - 1] == a * minBackoff
  {
    var attempt := 1;
    waits := [];
    while true
      invariant 1 <= attempt <= SUBSCRIBE_ATTEMPTS
      invariant forall a :: 1 <= a < attempt ==> !answers(a) && !ended(a)
      invariant |waits| == attempt - 1 && forall a :: 1 <= a < attempt ==> waits[a - 1] == a * minBackoff
      decreases SUBSCRIBE_ATTEMPTS - attempt
    {
      if answers(attempt) {
        return Subscribed, attempt, waits;
      }
      if ended(attempt) {
        return Stopped, attempt, waits;
      }
      if attempt == SUBSCRIBE_ATTEMPTS {
        return GaveUp, attempt, waits;
      }
      waits := waits + [attempt * minBackoff];
      attempt := attempt + 1;
    }
  }

  predicate IsRun(s: State, steps: seq<Step>)
    decreases |steps|
  {
    steps == [] || (Enabled(s, steps[0]) && IsRun(Apply(s, steps[0]), steps[1..]))
  }

  function Run(s: State, steps: seq<Step>): State
    requires IsRun(s, steps)
    decreases |steps|
  {
    if steps == [] then s else Run(Apply(s, steps[0]), steps[1..])
  }

  // ----- The invariant -----

  ghost predicate TaskOk(s: State, t: Task) {
    && t.session <= s.session && 1 <= t.calls <= SUBSCRIBE_ATTEMPTS
    && (t.session == s.session ==> s.stage == Live || s.stage.Over?)
    && (t.progress.Calling? ==> t.calls == t.progress.attempt)
    && (t.progress.Sleeping? ==> t.calls == t.progress.attempt < SUBSCRIBE_ATTEMPTS)
    && (t.progress.Stopped? || t.progress.GaveUp? ==> Ended(s, t.session))
  }

  ghost predicate TasksOk(s: State) {
    forall i :: 0 <= i < |s.tasks| ==> TaskOk(s, s.tasks[i])
  }

  /** A task that gave up in the running session has ended its context, unless something ended it before. */
  ghost predicate CauseOk(s: State) {
    && (s.stage == Live ==>
          && (s.parentEnded ==> s.cause.Some?)
          && (s.cause == Some(Parent) ==> s.parentEnded)
          && forall i :: 0 <= i < |s.tasks| && s.tasks[i].session == s.session && s.tasks[i].progress.GaveUp? ==>
               s.cause.Some?)
    && (s.cause.Some? && s.cause.value.SubscribeFailed? ==>
          s.cause.value.task < |s.tasks| && s.tasks[s.cause.value.task].progress.GaveUp?)
  }

  ghost predicate OpOk(s: State, k: nat)
    requires k < |s.log|
  {
    match s.log[k]
    case Fetched(session, url) => session <= s.session && url < s.fetches
    case Dialed(session, url) =>
      && session <= s.session && url < s.fetches
      && (exists j :: 0 <= j < k && s.log[j] == Fetched(session, url))
      && (forall j :: 0 <= j < k && s.log[j].Dialed? ==> s.log[j].url != url)
  }

  ghost predicate LogOk(s: State) {
    && (forall k :: 0 <= k < |s.log| ==> OpOk(s, k))
    && (s.stage.NeedDial? ==>
          && s.stage.url < s.fetches && Fetched(s.session, s.stage.url) in s.log
          && forall k :: 0 <= k < |s.log| && s.log[k].Dialed? ==> s.log[k].url != s.stage.url)
  }

  ghost predicate Inv(s: State) {
    TasksOk(s) && CauseOk(s) && LogOk(s)
  }

  lemma TasksStep(s: State, step: Step)
    requires Inv(s) && Enabled(s, step)
    ensures TasksOk(Apply(s, step))
  {
    var s' := Apply(s, step);
    forall i | 0 <= i < |s'.tasks| ensures TaskOk(s', s'.tasks[i]) {
      assert i < |s.tasks| ==> TaskOk(s, s.tasks[i]);
    }
  }

  lemma CauseStep(s: State, step: Step)
    requires Inv(s) && Enabled(s, step)
    ensures CauseOk(Apply(s, step))
  {
  }

  lemma OldOpsStay(s: State, s': State)
    requires (forall k :: 0 <= k < |s.log| ==> OpOk(s, k)) && s.log <= s'.log
    requires s.session <= s'.session && s.fetches <= s'.fetches
    ensures forall k :: 0 <= k < |s.log| ==> OpOk(s', k)
  {
    forall k | 0 <= k < |s.log| ensures OpOk(s', k) {
      assert OpOk(s, k) && s'.log[k] == s.log[k];
      if s.log[k].Dialed? {
        var j :| 0 <= j < k && s.log[j] == Fetched(s.log[k].session, s.log[k].url);
        assert s'.log[j] == s.log[j];
      }
    }
  }

  lemma FetchKeepsLog(s: State)
    requires Inv(s) && Enabled(s, UrlFetched)
    ensures LogOk(Apply(s, UrlFetched))
  {
    var s' := Apply(s, UrlFetched);
    OldOpsStay(s, s');
    assert s'.log[|s.log|] == Fetched(s.session, s.fetches);
    forall k | 0 <= k < |s'.log| && s'.log[k].Dialed? ensures s'.log[k].url != s.fetches {
      assert OpOk(s, k);
    }
  }

  lemma DialKeepsLog(s: State, s': State)
    requires Inv(s) && s.stage.NeedDial? && s'.session == s.session && s'.fetches == s.fetches && !s'.stage.NeedDial?
    requires s'.log == s.log + [Dialed(s.session, s.stage.url)]
    ensures LogOk(s')
  {
    OldOpsStay(s, s');
    var j :| 0 <= j < |s.log| && s.log[j] == Fetched(s.session, s.stage.url);
    assert s'.log[j] == s.log[j];
    assert OpOk(s', |s.log|);
  }

  lemma LogStep(s: State, step: Step)
    requires Inv(s) && Enabled(s, step)
    ensures LogOk(Apply(s, step))
  {
    var s' := Apply(s, step);
    if step.UrlFetched? {
      FetchKeepsLog(s);
    } else if s.stage.NeedDial? && (step.DialOk? || step.SetupFails?) {
      DialKeepsLog(s, s');
    } else {
      OldOpsStay(s, s');
    }
  }

  lemma {:induction false} RunKeeps(s: State, steps: seq<Step>)
    requires Inv(s) && IsRun(s, steps)
    ensures Inv(Run(s, steps))
    decreases |steps|
  {
    if steps != [] {
      TasksStep(s, steps[0]);
      CauseStep(s, steps[0]);
      LogStep(s, steps[0]);
      RunKeeps(Apply(s, steps[0]), steps[1..]);
    }
  }

  // ----- Theorems -----

  /** The tasks of a session, one for each connected event with a key. */
  function KeyedEvents(s: State, steps: seq<Step>): nat
    requires IsRun(s, steps)
    decreases |steps|
  {
    if steps == [] then 0
    else (if steps[0].Connected? && steps[0].key != "" then 1 else 0) + KeyedEvents(Apply(s, steps[0]), steps[1..])
  }

  lemma {:induction false} OneTaskPerEvent(s: State, steps: seq<Step>)
    requires IsRun(s, steps)
    ensures |Run(s, steps).tasks| == |s.tasks| + KeyedEvents(s, steps)
    decreases |steps|
  {
    if steps != [] {
      OneTaskPerEvent(Apply(s, steps[0]), steps[1..]);
    }
  }

  /** An attempt is running or will be made. */
  predicate Trying(t: Task) {
    t.progress.Calling? || t.progress.Sleeping?
  }

  /** How many of task i's calls have returned in steps, with success or without. */
  function Returns(steps: seq<Step>, i: nat, ok: bool): nat {
    if steps == [] then 0
    else Returns(steps[..|steps| - 1], i, ok) + if steps[|steps| - 1] == CallReturns(i, ok) then 1 else 0
  }

  lemma {:induction false} ReturnsIn(steps: seq<Step>, i: nat, ok: bool)
    ensures Returns(steps, i, ok) > 0 <==> CallReturns(i, ok) in steps
  {
    if steps != [] {
      ReturnsIn(steps[..|steps| - 1], i, ok);
      assert steps == steps[..|steps| - 1] + [steps[|steps| - 1]];
    }
  }

  /** t's calls are those that have returned, and the one that has not; it is subscribed after a success only. */
  ghost predicate Counted(t: Task, failures: nat, successes: nat) {
    && successes == (if t.progress.Subscribed? then 1 else 0)
    && t.calls == failures + successes + (if t.progress.Calling? then 1 else 0)
    && (t.progress.GaveUp? ==> failures == SUBSCRIBE_ATTEMPTS)
    && (t.progress.Sleeping? ==> failures < SUBSCRIBE_ATTEMPTS)
  }

  lemma {:induction false} RunsByLast(s: State, steps: seq<Step>)
    requires IsRun(s, steps) && steps != []
    ensures IsRun(s, steps[..|steps| - 1])
    ensures Enabled(Run(s, steps[..|steps| - 1]), steps[|steps| - 1])
    ensures Run(s, steps) == Apply(Run(s, steps[..|steps| - 1]), steps[|steps| - 1])
    decreases |steps|
  {
    var n := |steps| - 1;
    if n > 0 {
      RunsByLast(Apply(s, steps[0]), steps[1..]);
      assert steps[1..][..n - 1] == steps[..n][1..];
    }
  }

  lemma CountedStep(s: State, step: Step, i: nat, failures: nat, successes: nat)
    requires Enabled(s, step) && TasksOk(s) && i < |Apply(s, step).tasks|
    requires if i < |s.tasks| then Counted(s.tasks[i], failures, successes) else failures == successes == 0
    ensures Counted(Apply(s, step).tasks[i], failures + if step == CallReturns(i, false) then 1 else 0,
                    successes + if step == CallReturns(i, true) then 1 else 0)
  {
    if i < |s.tasks| {
      assert TaskOk(s, s.tasks[i]);
    }
  }

  lemma {:induction false} TasksAreCounted(steps: seq<Step>, i: nat)
    requires IsRun(INIT, steps)
    ensures if i < |Run(INIT, steps).tasks| then
              Counted(Run(INIT, steps).tasks[i], Returns(steps, i, false), Returns(steps, i, true))
            else Returns(steps, i, false) == Returns(steps, i, true) == 0
    decreases |steps|
  {
    if steps != [] {
      var before := steps[..|steps| - 1];
      RunsByLast(INIT, steps);
      TasksAreCounted(before, i);
      RunKeeps(INIT, before);
      if i < |Run(INIT, steps).tasks| {
        CountedStep(Run(INIT, before), steps[|steps| - 1], i, Returns(before, i, false), Returns(before, i, true));
      }
    }
  }

  /**
   * No silent connection: for every connected event with a key that was handled, in every reachable
   * state, its subscribe task is still trying, or one of its calls returned with success, or its session's
   * context has ended. No task calls SubscribeChat more than three times.
   */
  lemma NoSilentConnection(steps: seq<Step>)
    requires IsRun(INIT, steps)
    ensures var s := Run(INIT, steps);
            && |s.tasks| == KeyedEvents(INIT, steps)
            && forall i :: 0 <= i < |s.tasks| ==>
                 && (Trying(s.tasks[i]) || s.tasks[i].progress.Subscribed? || Ended(s, s.tasks[i].session))
                 && (s.tasks[i].progress.Subscribed? <==> CallReturns(i, true) in steps)
                 && 1 <= s.tasks[i].calls <= SUBSCRIBE_ATTEMPTS
  {
    RunKeeps(INIT, steps);
    OneTaskPerEvent(INIT, steps);
    var s := Run(INIT, steps);
    forall i | 0 <= i < |s.tasks|
      ensures Trying(s.tasks[i]) || s.tasks[i].progress.Subscribed? || Ended(s, s.tasks[i].session)
      ensures s.tasks[i].progress.Subscribed? <==> CallReturns(i, true) in steps
      ensures 1 <= s.tasks[i].calls <= SUBSCRIBE_ATTEMPTS
    {
      assert TaskOk(s, s.tasks[i]);
      TasksAreCounted(steps, i);
      ReturnsIn(steps, i, true);
    }
  }

  /**
   * Three calls of a task that return without success end its session: its context has a cause, or the
   * session is over. Fewer do not: then the task makes another call, unless something else ended the context.
   */
  lemma ThreeFailuresEndTheSession(steps: seq<Step>, i: nat)
    requires IsRun(INIT, steps) && i < |Run(INIT, steps).tasks|
    ensures var s := Run(INIT, steps);
            var t := s.tasks[i];
            && Returns(steps, i, false) <= 3
            && (Returns(steps, i, false) == 3 ==> t.session < s.session || s.stage.Over? || s.cause.Some?)
            && (Returns(steps, i, false) < 3 && CallReturns(i, true) !in steps && !Ended(s, t.session) ==> Trying(t))
  {
    RunKeeps(INIT, steps);
    var s := Run(INIT, steps);
    assert TaskOk(s, s.tasks[i]);
    TasksAreCounted(steps, i);
    ReturnsIn(steps, i, true);
  }

  /** A connected event without a key ends the context of the session that it came to. */
  lemma NoKeyEndsTheSession(steps: seq<Step>)
    requires IsRun(INIT, steps + [Connected("")])
    ensures Run(INIT, steps + [Connected("")]).cause.Some?
    ensures IsRun(INIT, steps) && (Run(INIT, steps).cause.None? ==>
              Run(INIT, steps + [Connected("")]).cause == Some(NoSessionKey))
  {
    var all := steps + [Connected("")];
    RunsByLast(INIT, all);
    assert all[..|all| - 1] == steps;
  }

  /** The third failure in a live context is the cause that the session then returns, unless the parent ends. */
  lemma ThirdFailureIsTheResult(steps: seq<Step>, i: nat, reason: string)
    requires IsRun(INIT, steps) && i < |Run(INIT, steps).tasks|
    requires var s := Run(INIT, steps);
             && s.stage == Live && !s.parentEnded && s.cause.None?
             && s.tasks[i].session == s.session && s.tasks[i].progress.Calling? && Returns(steps, i, false) == 2
    ensures var s := Run(INIT, steps);
            && Enabled(s, CallReturns(i, false)) && Enabled(Apply(s, CallReturns(i, false)), RunReturns(reason))
            && var s' := Apply(s, CallReturns(i, false));
               && s'.cause == Some(SubscribeFailed(i))
               && Apply(s', RunReturns(reason)).stage == Over(FailedBy(SubscribeFailed(i)))
  {
    TasksAreCounted(steps, i);
    RunKeeps(INIT, steps);
    assert TaskOk(Run(INIT, steps), Run(INIT, steps).tasks[i]);
  }

  /**
   * A session one of whose tasks gave up, or failed three times, returns a cause that fail set, unless the
   * parent has ended; and if that cause names a task, the task did give up.
   */
  lemma GivingUpIsTheResult(steps: seq<Step>, i: nat, reason: string)
    requires IsRun(INIT, steps)
    requires var s := Run(INIT, steps);
             && s.stage == Live && !s.parentEnded
             && i < |s.tasks| && s.tasks[i].session == s.session
             && (s.tasks[i].progress.GaveUp? || Returns(steps, i, false) == 3)
    ensures var s := Run(INIT, steps);
            var s' := Apply(s, RunReturns(reason));
            && s'.stage.Over? && s'.stage.result.FailedBy? && s'.stage.result.cause != Parent
            && (s'.stage.result.cause.SubscribeFailed? ==>
                  s'.stage.result.cause.task < |s.tasks| && s.tasks[s'.stage.result.cause.task].progress.GaveUp?)
  {
    RunKeeps(INIT, steps);
    TasksAreCounted(steps, i);
    assert TaskOk(Run(INIT, steps), Run(INIT, steps).tasks[i]);
  }

  /** A call that fails after its context has ended stops its task, and nothing else. */
  lemma EndedContextsStopTasks(s: State, i: nat)
    requires i < |s.tasks| && s.tasks[i].progress.Calling?
    requires s.tasks[i].session < s.session || s.stage.Over? || s.cause.Some?
    ensures Apply(s, CallReturns(i, false)) == s.(tasks := s.tasks[i := s.tasks[i].(progress := Stopped)])
  {
  }

  /** The first cause of a session's context stays its cause, whatever fails after it. */
  lemma {:induction false} FirstCauseStays(s: State, steps: seq<Step>)
    requires IsRun(s, steps) && s.stage.Live? && s.cause.Some?
    requires forall i :: 0 <= i < |steps| ==> !steps[i].NextSession?
    ensures Run(s, steps).cause == s.cause
    decreases |steps|
  {
    if steps != [] && steps[0].RunReturns? {
      OverStays(Apply(s, steps[0]), steps[1..]);
    } else if steps != [] {
      FirstCauseStays(Apply(s, steps[0]), steps[1..]);
    }
  }

  lemma {:induction false} OverStays(s: State, steps: seq<Step>)
    requires IsRun(s, steps) && s.stage.Over? && s.cause.Some?
    requires forall i :: 0 <= i < |steps| ==> !steps[i].NextSession?
    ensures Run(s, steps).cause == s.cause && Run(s, steps).stage == s.stage
    decreases |steps|
  {
    if steps != [] {
      OverStays(Apply(s, steps[0]), steps[1..]);
    }
  }

  /** Once the parent context has ended, no further session begins. */
  lemma {:induction false} NoSessionAfterTheParent(s: State, steps: seq<Step>)
    requires IsRun(s, steps) && s.parentEnded
    ensures Run(s, steps).parentEnded && Run(s, steps).session == s.session
    decreases |steps|
  {
    if steps != [] {
      NoSessionAfterTheParent(Apply(s, steps[0]), steps[1..]);
    }
  }

  /** And only then, or after a connected event without a key: otherwise it returns what the socket did. */
  lemma OwnCauseOnlyFromFail(steps: seq<Step>, reason: string)
    requires IsRun(INIT, steps) && Run(INIT, steps).stage == Live
    ensures var s := Run(INIT, steps);
            var r := Apply(s, RunReturns(reason)).stage.result;
            r.FailedBy? ==>
              || r.cause == NoSessionKey
              || (r.cause.SubscribeFailed? && r.cause.task < |s.tasks| && s.tasks[r.cause.task].progress.GaveUp?)
  {
    RunKeeps(INIT, steps);
  }

  /** A session URL is dialed at most once, and by the session that fetched it. */
  lemma UrlsAreSingleUse(steps: seq<Step>, k: nat)
    requires IsRun(INIT, steps) && k < |Run(INIT, steps).log| && Run(INIT, steps).log[k].Dialed?
    ensures var log := Run(INIT, steps).log;
            && (exists j :: 0 <= j < k && log[j] == Fetched(log[k].session, log[k].url))
            && forall j :: 0 <= j < |log| && log[j].Dialed? && j != k ==> log[j].url != log[k].url
  {
    RunKeeps(INIT, steps);
    var s := Run(INIT, steps);
    assert OpOk(s, k);
    forall j | 0 <= j < |s.log| && s.log[j].Dialed? && j != k ensures s.log[j].url != s.log[k].url {
      assert OpOk(s, j);
    }
  }
}

/**
 * Exactly which committed changes can leave a stale badge behind (internal/resolver/resolver.go,
 * internal/link/link.go), in the interleaved model of CoherenceRaces: those that a resolution of the
 * same sender, already under way, would miss.
 */
module CoherenceExact {
  import opened CoherenceRaces
  import opened ResolverTypes
  import opened Wrappers
  import Coherence
  import Resolver
  import Store
  import TtlCache

  /** The answer that a resolution under way gives if it does the rest of its reads in db. */
  function Outcome(db: Store.Db, f: Flight): Resolution {
    match f
    case Asked(sender) => Resolver.Fresh(db, sender)
    case Known(_, u, preferred) => if Store.HasActiveLink(db, u) then FromUser(db, u, preferred) else UNLINKED
    case Active(_, u, preferred) => FromUser(db, u, preferred)
    case Ready(_, res) => res
  }

  function FromUser(db: Store.Db, u: nat, preferred: Option<int>): Resolution {
    Resolver.FromRows(Store.ToRows(Store.ListDjClasses(db, u)), preferred)
  }

  function KeyOf(db: Store.Db, u: nat): string
    requires u < |db.users|
  {
    db.users[u].chzzkId
  }

  /** Every resolution of the changed sender that is under way would still give the new answer. */
  ghost predicate SafeChange(s: State, u: nat, change: Coherence.Change)
    requires u < |s.db.users|
  {
    var (db, committed) := Store.WriteTx(s.db, Coherence.Transaction(u, change));
    committed ==>
      forall id <- s.flights :: s.flights[id].sender == KeyOf(s.db, u) ==>
        Outcome(db, s.flights[id]) == Resolver.Fresh(db, KeyOf(s.db, u))
  }

  ghost predicate SafeStep(s: State, step: Step, key: string)
    requires Enabled(s, step)
  {
    step.Commit? && KeyOf(s.db, step.user) == key ==> SafeChange(s, step.user, step.change)
  }

  /** Every change of this sender commits safely. */
  ghost predicate SafeFor(s: State, steps: seq<Step>, key: string)
    requires IsRun(s, steps)
    decreases |steps|
  {
    steps == [] || (SafeStep(s, steps[0], key) && SafeFor(Apply(s, steps[0]), steps[1..], key))
  }

  /** The cached answer of a sender is right, or a change of the sender has yet to invalidate. */
  ghost predicate FreshOrPending(s: State, key: string) {
    IsPending(s, key) ||
    forall i :: 0 <= i < |s.cache| && s.cache[i].key == key ==> s.cache[i].value == Resolver.Fresh(s.db, key)
  }

  ghost predicate IsPending(s: State, key: string) {
    exists op :: op in s.pending && s.pending[op] == key
  }

  ghost predicate FlightsRight(s: State, key: string) {
    forall id <- s.flights :: s.flights[id].sender == key ==> Outcome(s.db, s.flights[id]) == Resolver.Fresh(s.db, key)
  }

  ghost predicate Placed(db: Store.Db, f: Flight) {
    f.sender != "" && (f.Known? || f.Active? ==> f.user < |db.users| && KeyOf(db, f.user) == f.sender)
  }

  ghost predicate AllPlaced(s: State) {
    forall id <- s.flights :: Placed(s.db, s.flights[id])
  }

  /** What every reachable state has, and what it has for a sender whose changes all were safe. */
  ghost predicate Sound(s: State) {
    CoherenceRaces.Inv(s) && AllPlaced(s)
  }

  ghost predicate Good(s: State, key: string) {
    Sound(s) && FlightsRight(s, key) && FreshOrPending(s, key)
  }

  // ----- One step -----

  lemma ReadKeepsOutcome(db: Store.Db, f: Flight)
    requires Placed(db, f)
    ensures Placed(db, Read(db, f)) && Read(db, f).sender == f.sender && Outcome(db, Read(db, f)) == Outcome(db, f)
  {
  }

  lemma LoginKeepsOutcome(db: Store.Db, chzzkId: string, nickname: string, f: Flight)
    requires db.Ok() && Placed(db, f)
    ensures var db' := Coherence.AfterLogin(db, chzzkId, nickname); Placed(db', f) && Outcome(db', f) == Outcome(db, f)
  {
    Coherence.LoginAddsOrRenames(db, chzzkId, nickname);
    if f.Asked? {
      Coherence.LoginKeepsAnswers(db, chzzkId, nickname, f.sender);
    } else if !f.Ready? {
      SameRowsSameOutcome(db, Coherence.AfterLogin(db, chzzkId, nickname), f);
    }
  }

  lemma SameRowsSameOutcome(db: Store.Db, db': Store.Db, f: Flight)
    requires f.Known? || f.Active?
    requires Store.HasActiveLink(db, f.user) == Store.HasActiveLink(db', f.user)
    requires Store.RowsOf(db, f.user) == Store.RowsOf(db', f.user)
    ensures Outcome(db', f) == Outcome(db, f)
  {
  }

  lemma CommitKeepsPlaced(s: State, u: nat, change: Coherence.Change, f: Flight)
    requires u < |s.db.users| && Placed(s.db, f)
    requires Store.ExecAll(s.db, Coherence.Transaction(u, change)).Some?
    ensures var db' := Store.ExecAll(s.db, Coherence.Transaction(u, change)).value;
            Placed(db', f) && (f.sender != KeyOf(s.db, u) ==> Outcome(db', f) == Outcome(s.db, f))
  {
    var sts := Coherence.Transaction(u, change);
    Coherence.TransactionIsForOne(u, change);
    Coherence.StatementsTouchOne(s.db, u, sts, if f.Known? || f.Active? then f.user else u);
    if f.sender != KeyOf(s.db, u) {
      Coherence.OthersKeepTheirAnswer(s.db, u, sts, f.sender);
    }
  }

  lemma PlacedStep(s: State, step: Step)
    requires Sound(s) && Enabled(s, step)
    ensures Sound(Apply(s, step))
  {
    CoherenceRaces.StepKeeps(s, step);
    var s' := Apply(s, step);
    forall id <- s'.flights ensures Placed(s'.db, s'.flights[id]) {
      if id in s.flights {
        var f := s.flights[id];
        ReadKeepsOutcome(s.db, f);
        if step.Login? {
          LoginKeepsOutcome(s.db, step.chzzkId, step.nickname, f);
        } else if step.Commit? && s'.db != s.db {
          CommitKeepsPlaced(s, step.user, step.change, f);
        }
      }
    }
  }

  lemma CommitGood(s: State, op: nat, u: nat, change: Coherence.Change, key: string)
    requires Good(s, key) && Enabled(s, Commit(op, u, change)) && SafeStep(s, Commit(op, u, change), key)
    ensures FlightsRight(Apply(s, Commit(op, u, change)), key) && FreshOrPending(Apply(s, Commit(op, u, change)), key)
  {
    var sts := Coherence.Transaction(u, change);
    var s' := Apply(s, Commit(op, u, change));
    if Store.ExecAll(s.db, sts).Some? {
      assert op in s'.pending && s'.pending[op] == KeyOf(s.db, u);
      if key != KeyOf(s.db, u) {
        Coherence.TransactionIsForOne(u, change);
        Coherence.OthersKeepTheirAnswer(s.db, u, sts, key);
        forall id <- s'.flights | s'.flights[id].sender == key
          ensures Outcome(s'.db, s'.flights[id]) == Resolver.Fresh(s'.db, key)
        {
          CommitKeepsPlaced(s, u, change, s.flights[id]);
        }
        PendingStays(s, s', key);
      }
    }
  }

  lemma PendingStays(s: State, s': State, key: string)
    requires forall op <- s.pending :: s.pending[op] == key ==> op in s'.pending && s'.pending[op] == key
    ensures IsPending(s, key) ==> IsPending(s', key)
  {
  }

  lemma InvalidateGood(s: State, op: nat, key: string)
    requires Good(s, key) && Enabled(s, Invalidate(op))
    ensures FlightsRight(Apply(s, Invalidate(op)), key) && FreshOrPending(Apply(s, Invalidate(op)), key)
  {
    var s' := Apply(s, Invalidate(op));
    Coherence.DeletedIsGone(s.cache, s.pending[op]);
    assert forall i :: 0 <= i < |s'.cache| ==> s'.cache[i] in s.cache;
    if s.pending[op] != key {
      PendingStays(s, s', key);
    }
  }

  lemma SaveGood(s: State, id: nat, key: string)
    requires Good(s, key) && Enabled(s, Save(id))
    ensures FlightsRight(Apply(s, Save(id)), key) && FreshOrPending(Apply(s, Save(id)), key)
  {
    var s' := Apply(s, Save(id));
    forall i | 0 <= i < |s'.cache| && !IsPending(s, key) && s'.cache[i].key == key
      ensures s'.cache[i].value == Resolver.Fresh(s'.db, key)
    {
      SetAddsOne(s, SaveOp(s, s.flights[id]), i);
    }
    PendingStays(s, s', key);
  }

  lemma LoginGood(s: State, chzzkId: string, nickname: string, key: string)
    requires Good(s, key)
    ensures FlightsRight(Apply(s, Login(chzzkId, nickname)), key)
            && FreshOrPending(Apply(s, Login(chzzkId, nickname)), key)
  {
    var s' := Apply(s, Login(chzzkId, nickname));
    Coherence.LoginKeepsAnswers(s.db, chzzkId, nickname, key);
    forall id <- s'.flights | s'.flights[id].sender == key
      ensures Outcome(s'.db, s'.flights[id]) == Resolver.Fresh(s'.db, key)
    {
      LoginKeepsOutcome(s.db, chzzkId, nickname, s.flights[id]);
    }
    PendingStays(s, s', key);
  }

  lemma LookupGood(s: State, id: nat, sender: string, key: string)
    requires Good(s, key) && Enabled(s, Lookup(id, sender))
    ensures FlightsRight(Apply(s, Lookup(id, sender)), key) && FreshOrPending(Apply(s, Lookup(id, sender)), key)
  {
    var s' := Apply(s, Lookup(id, sender));
    assert forall i :: 0 <= i < |s'.cache| ==> s'.cache[i] in s.cache;
    PendingStays(s, s', key);
  }

  lemma GoodStep(s: State, step: Step, key: string)
    requires Good(s, key) && Enabled(s, step) && SafeStep(s, step, key)
    ensures Good(Apply(s, step), key)
  {
    PlacedStep(s, step);
    match step
    case Lookup(id, sender) => LookupGood(s, id, sender, key);
    case ReadUser(id) => ReadKeepsOutcome(s.db, s.flights[id]);
    case ReadLink(id) => ReadKeepsOutcome(s.db, s.flights[id]);
    case ReadRows(id) => ReadKeepsOutcome(s.db, s.flights[id]);
    case Save(id) => SaveGood(s, id, key);
    case Fail(_) => PendingStays(s, Apply(s, step), key);
    case Commit(op, u, change) => CommitGood(s, op, u, change, key);
    case Invalidate(op) => InvalidateGood(s, op, key);
    case Login(chzzkId, nickname) => LoginGood(s, chzzkId, nickname, key);
    case Tick(_) => PendingStays(s, Apply(s, step), key);
  }

  lemma {:induction false} GoodRun(s: State, steps: seq<Step>, key: string)
    requires Good(s, key) && IsRun(s, steps) && SafeFor(s, steps, key)
    ensures Good(Run(s, steps), key)
    decreases |steps|
  {
    if steps != [] {
      GoodStep(s, steps[0], key);
      GoodRun(Apply(s, steps[0]), steps[1..], key);
    }
  }

  lemma {:induction false} SoundRun(s: State, steps: seq<Step>)
    requires Sound(s) && IsRun(s, steps)
    ensures Sound(Run(s, steps))
    decreases |steps|
  {
    if steps != [] {
      PlacedStep(s, steps[0]);
      SoundRun(Apply(s, steps[0]), steps[1..]);
    }
  }

  /**
   * In any run in which the changes of a sender commit safely, whatever happens to other senders, a cached
   * answer of the sender is right unless one of those changes has yet to invalidate.
   */
  lemma SafeChangesKeepTheCacheRight(db: Store.Db, now: int, steps: seq<Step>, key: string)
    requires db.Ok() && IsRun(Start(db, now), steps) && SafeFor(Start(db, now), steps, key)
    ensures FreshOrPending(Run(Start(db, now), steps), key)
  {
    GoodRun(Start(db, now), steps, key);
  }

  // ----- The other direction -----

  predicate IsRead(step: Step) {
    step.ReadUser? || step.ReadLink? || step.ReadRows?
  }

  function Stage(f: Flight): nat {
    match f
    case Asked(_) => 3
    case Known(_, _, _) => 2
    case Active(_, _, _) => 1
    case Ready(_, _) => 0
  }

  function NextRead(id: nat, f: Flight): Step
    requires !f.Ready?
  {
    match f
    case Asked(_) => ReadUser(id)
    case Known(_, _, _) => ReadLink(id)
    case Active(_, _, _) => ReadRows(id)
  }

  lemma ReadStep(s: State, id: nat)
    requires id in s.flights && !s.flights[id].Ready? && Placed(s.db, s.flights[id])
    ensures var f := s.flights[id];
            var f' := Read(s.db, f);
            && Enabled(s, NextRead(id, f)) && IsRead(NextRead(id, f))
            && Apply(s, NextRead(id, f)) == s.(flights := s.flights[id := f'])
            && Stage(f') < Stage(f) && f'.sender == f.sender && Placed(s.db, f')
                 && Outcome(s.db, f') == Outcome(s.db, f)
  {
    ReadKeepsOutcome(s.db, s.flights[id]);
  }

  /** A resolution can always do the rest of its reads, and then holds its outcome. */
  lemma {:induction false} FinishReads(s: State, id: nat) returns (more: seq<Step>)
    requires id in s.flights && Placed(s.db, s.flights[id])
    ensures IsRun(s, more) && forall i :: 0 <= i < |more| ==> IsRead(more[i])
    ensures var f := s.flights[id]; Run(s, more) == s.(flights := s.flights[id := Ready(f.sender, Outcome(s.db, f))])
    decreases Stage(s.flights[id])
  {
    var f := s.flights[id];
    if f.Ready? {
      more := [];
      assert s.flights[id := f] == s.flights;
    } else {
      var step := NextRead(id, f);
      ReadStep(s, id);
      var s' := Apply(s, step);
      var rest := FinishReads(s', id);
      more := [step] + rest;
      assert more[1..] == rest;
      assert s'.flights[id := Ready(f.sender, Outcome(s.db, f))] == s.flights[id := Ready(f.sender, Outcome(s.db, f))];
    }
  }

  lemma {:induction false} NoCommitsIsSafe(s: State, steps: seq<Step>, key: string)
    requires IsRun(s, steps) && forall i :: 0 <= i < |steps| ==> !steps[i].Commit?
    ensures SafeFor(s, steps, key)
    decreases |steps|
  {
    if steps != [] {
      NoCommitsIsSafe(Apply(s, steps[0]), steps[1..], key);
    }
  }

  /** Invalidating and then saving a held answer leaves it in the cache. */
  lemma InvalidateThenSave(s: State, op: nat, id: nat)
    requires TtlCache.Distinct(s.cache) && |s.cache| <= Resolver.MAX_ENTRIES
    requires op in s.pending && id in s.flights && s.flights[id].Ready?
    ensures IsRun(s, [Invalidate(op), Save(id)])
    ensures var t := Run(s, [Invalidate(op), Save(id)]);
            && t.db == s.db && t.pending == s.pending - {op}
            && TtlCache.Get(t.cache, s.flights[id].sender, t.now).1 == Some(s.flights[id].res)
  {
    var s1 := Apply(s, Invalidate(op));
    var t := Apply(s1, Save(id));
    var f := s.flights[id];
    assert [Invalidate(op), Save(id)][1..] == [Save(id)];
    assert Run(s1, [Save(id)]) == t;
    TtlCache.StepKeeps(Resolver.MAX_ENTRIES, s.cache, TtlCache.DeleteOp(s.pending[op]));
    SetIsFound(s1.cache, f.sender, f.res, s.now, Resolver.Ttl(f.res.status));
  }

  lemma SetIsFound(cache: Resolver.Cache, key: string, res: Resolution, now: int, ttl: int)
    requires TtlCache.Distinct(cache) && |cache| <= Resolver.MAX_ENTRIES && ttl > 0
    ensures TtlCache.Get(TtlCache.Set(Resolver.MAX_ENTRIES, cache, key, res, now, ttl), key, now).1 == Some(res)
  {
    var after := TtlCache.Set(Resolver.MAX_ENTRIES, cache, key, res, now, ttl);
    TtlCache.StepKeeps(Resolver.MAX_ENTRIES, cache, TtlCache.SetOp(key, res, now, ttl));
    var p := TtlCache.Pos(cache, key);
    TtlCache.PosIs(after, key, if p < |cache| then p else |after| - 1);
  }

  /** A resolution finishes its reads, a change invalidates, and the resolution stores its outcome. */
  lemma FinishAndStore(s: State, op: nat, id: nat) returns (more: seq<Step>)
    requires TtlCache.Distinct(s.cache) && |s.cache| <= Resolver.MAX_ENTRIES
    requires op in s.pending && id in s.flights && Placed(s.db, s.flights[id])
    ensures IsRun(s, more) && forall i :: 0 <= i < |more| ==> !more[i].Commit?
    ensures var t := Run(s, more);
            && t.db == s.db && t.pending == s.pending - {op}
            && TtlCache.Get(t.cache, s.flights[id].sender, t.now).1 == Some(Outcome(s.db, s.flights[id]))
  {
    var first := FinishReads(s, id);
    var last := [Invalidate(op), Save(id)];
    InvalidateThenSave(Run(s, first), op, id);
    RunsJoin(s, first, last);
    more := first + last;
    forall i | 0 <= i < |more| ensures !more[i].Commit? {
      assert i < |first| ==> IsRead(first[i]);
    }
  }

  /** A change that is not safe commits, and some resolution of its sender would miss it. */
  lemma UnsafeMisses(s: State, op: nat, u: nat, change: Coherence.Change) returns (id: nat)
    requires Sound(s) && Enabled(s, Commit(op, u, change)) && !SafeChange(s, u, change)
    ensures Misses(Apply(s, Commit(op, u, change)), op, id, KeyOf(s.db, u))
    ensures Apply(s, Commit(op, u, change)).pending - {op} == s.pending
  {
    var s1 := Apply(s, Commit(op, u, change));
    PlacedStep(s, Commit(op, u, change));
    id :| id in s.flights && s.flights[id].sender == KeyOf(s.db, u)
          && Outcome(s1.db, s.flights[id]) != Resolver.Fresh(s1.db, KeyOf(s.db, u));
  }

  /** The change op is yet to invalidate, and the resolution id of key will give a wrong answer. */
  ghost predicate Misses(s: State, op: nat, id: nat, key: string) {
    && Sound(s) && op in s.pending
    && id in s.flights && s.flights[id].sender == key
    && Outcome(s.db, s.flights[id]) != Resolver.Fresh(s.db, key)
  }

  /** No further change commits, only pending is left to invalidate, and the cached answer for key is wrong. */
  ghost predicate EndsStale(s: State, more: seq<Step>, pending: map<nat, string>, key: string) {
    && IsRun(s, more) && (forall i :: 0 <= i < |more| ==> !more[i].Commit?)
    && var t := Run(s, more);
       var hit := TtlCache.Get(t.cache, key, t.now).1;
       && t.pending == pending && t.db == s.db
       && hit.Some? && hit.value != Resolver.Fresh(s.db, key)
  }

  lemma MissedIsStored(s: State, op: nat, id: nat, key: string, pending: map<nat, string>) returns (more: seq<Step>)
    requires Misses(s, op, id, key) && s.pending - {op} == pending
    ensures EndsStale(s, more, pending, key)
  {
    more := FinishAndStore(s, op, id);
  }

  /**
   * An unsafe change can always go wrong: from any reachable state, some resolution of the sender finishes
   * its reads, the change invalidates, and the resolution stores an answer that is wrong, with nothing of
   * this change left to come.
   */
  lemma UnsafeChangeGoesStale(s: State, op: nat, u: nat, change: Coherence.Change)
    returns (s1: State, more: seq<Step>)
    requires Sound(s) && Enabled(s, Commit(op, u, change)) && !SafeChange(s, u, change)
    ensures s1 == Apply(s, Commit(op, u, change)) && EndsStale(s1, more, s.pending, KeyOf(s.db, u))
  {
    s1 := Apply(s, Commit(op, u, change));
    var id := UnsafeMisses(s, op, u, change);
    more := MissedIsStored(s1, op, id, KeyOf(s.db, u), s.pending);
  }

  lemma StaleIsNotFresh(s: State, key: string)
    requires TtlCache.Get(s.cache, key, s.now).1.Some?
             && TtlCache.Get(s.cache, key, s.now).1.value != Resolver.Fresh(s.db, key)
    requires !IsPending(s, key)
    ensures !FreshOrPending(s, key)
  {
    assert s.cache[TtlCache.Pos(s.cache, key)].key == key;
  }

  lemma StaleRefutes(s1: State, more: seq<Step>, s: State, key: string)
    requires EndsStale(s1, more, s.pending, key) && !IsPending(s, key)
    ensures IsRun(s1, more) && SafeFor(s1, more, key) && !FreshOrPending(Run(s1, more), key)
  {
    NoCommitsIsSafe(s1, more, key);
    var t := Run(s1, more);
    PendingStays(t, s, key);
    StaleIsNotFresh(t, key);
  }

  lemma SafeExactlyFrom(s: State, op: nat, u: nat, change: Coherence.Change)
    requires u < |s.db.users| && Enabled(s, Commit(op, u, change))
    requires Good(s, KeyOf(s.db, u)) && !IsPending(s, KeyOf(s.db, u))
    ensures var s1, key := Apply(s, Commit(op, u, change)), KeyOf(s.db, u);
            SafeChange(s, u, change) <==>
            forall more :: IsRun(s1, more) && SafeFor(s1, more, key) ==> FreshOrPending(Run(s1, more), key)
  {
    var s1, key := Apply(s, Commit(op, u, change)), KeyOf(s.db, u);
    if SafeChange(s, u, change) {
      GoodStep(s, Commit(op, u, change), key);
      forall more | IsRun(s1, more) && SafeFor(s1, more, key) ensures FreshOrPending(Run(s1, more), key) {
        GoodRun(s1, more, key);
      }
    } else {
      var s2, more := UnsafeChangeGoesStale(s, op, u, change);
      StaleRefutes(s1, more, s, key);
    }
  }

  /**
   * The exact condition. After a run in which the changes of a sender were safe and none is pending, a
   * further change of the sender keeps the cache right for it under every continuation, as long as later
   * changes of the sender are safe, exactly if it is safe itself: if every resolution of the sender already
   * under way would still give the new answer.
   */
  lemma SafeExactlyIfNeverStale(db: Store.Db, now: int, steps: seq<Step>, op: nat, u: nat, change: Coherence.Change)
    requires db.Ok() && IsRun(Start(db, now), steps)
    requires var s := Run(Start(db, now), steps);
             && Enabled(s, Commit(op, u, change))
             && SafeFor(Start(db, now), steps, KeyOf(s.db, u)) && !IsPending(s, KeyOf(s.db, u))
    ensures var s := Run(Start(db, now), steps);
            var s1, key := Apply(s, Commit(op, u, change)), KeyOf(s.db, u);
            SafeChange(s, u, change) <==>
            forall more :: IsRun(s1, more) && SafeFor(s1, more, key) ==> FreshOrPending(Run(s1, more), key)
  {
    var s := Run(Start(db, now), steps);
    GoodRun(Start(db, now), steps, KeyOf(s.db, u));
    SafeExactlyFrom(s, op, u, change);
  }

  /** A change during which no resolution of its sender is under way, or only ones that have read nothing, is safe. */
  lemma EarlyResolutionsAreSafe(s: State, u: nat, change: Coherence.Change)
    requires u < |s.db.users|
    requires forall id <- s.flights :: s.flights[id].sender == KeyOf(s.db, u) ==> s.flights[id].Asked?
    ensures SafeChange(s, u, change)
  {
  }
}

/**
 * The same cache when the steps interleave: a resolution looks in the cache, reads three tables one
 * after the other and then stores its answer; a change commits, and invalidates later.
 */
module CoherenceRaces {
  import opened Wrappers
  import opened ResolverTypes
  import Coherence
  import Resolver
  import Store
  import TtlCache

  /** A resolution under way, with what it has read so far. */
  datatype Flight =
    | Asked(sender: string)
    | Known(sender: string, user: nat, preferred: Option<int>)
    | Active(sender: string, user: nat, preferred: Option<int>)
    | Ready(sender: string, res: Resolution)

  /**
   * pending holds, for each committed change that has not invalidated yet, the key it will drop.
   * The last three fields only keep books: the resolutions overtaken by a change of their sender,
   * the keys whose cached answer may be out of date, and what was done to the cache.
   */
  datatype State = State(
    db: Store.Db, cache: Resolver.Cache, now: int, flights: map<nat, Flight>, pending: map<nat, string>,
    overtaken: set<nat>, doubtful: set<string>, history: seq<TtlCache.Op<Resolution>>)

  datatype Step =
    | Lookup(id: nat, sender: string)
    | ReadUser(id: nat)
    | ReadLink(id: nat)
    | ReadRows(id: nat)
    | Save(id: nat)
    | Fail(id: nat)
    | Commit(op: nat, user: nat, change: Coherence.Change)
    | Invalidate(op: nat)
    | Login(chzzkId: string, nickname: string)
    | Tick(elapsed: nat)

  predicate Enabled(s: State, step: Step) {
    match step
    case Lookup(id, sender) => id !in s.flights && sender != ""
    case ReadUser(id) => id in s.flights && s.flights[id].Asked?
    case ReadLink(id) => id in s.flights && s.flights[id].Known?
    case ReadRows(id) => id in s.flights && s.flights[id].Active?
    case Save(id) => id in s.flights && s.flights[id].Ready?
    case Fail(id) => id in s.flights
    case Commit(op, u, change) => op !in s.pending && u < |s.db.users|
    case Invalidate(op) => op in s.pending
    case Login(_, _) => true
    case Tick(_) => true
  }

  /** What a read turns a resolution into. */
  function Read(db: Store.Db, f: Flight): Flight {
    match f
    case Asked(sender) =>
      var u := Store.FindUser(db.users, sender);
      if u == |db.users| then Ready(sender, UNLINKED) else Known(sender, u, db.users[u].preferred)
    case Known(sender, u, preferred) =>
      if Store.HasActiveLink(db, u) then Active(sender, u, preferred) else Ready(sender, UNLINKED)
    case Active(sender, u, preferred) =>
      Ready(sender, Resolver.FromRows(Store.ToRows(Store.ListDjClasses(db, u)), preferred))
    case Ready(_, _) => f
  }

  /** One operation on the cache, written down. */
  function Do(s: State, op: TtlCache.Op<Resolution>): State {
    s.(cache := TtlCache.Step(Resolver.MAX_ENTRIES, s.cache, op), history := s.history + [op])
  }

  function SaveOp(s: State, f: Flight): TtlCache.Op<Resolution>
    requires f.Ready?
  {
    TtlCache.SetOp(f.sender, f.res, s.now, Resolver.Ttl(f.res.status))
  }

  function SendersOf(flights: map<nat, Flight>, key: string): set<nat> {
    set id | id in flights && flights[id].sender == key
  }

  function Apply(s: State, step: Step): State
    requires Enabled(s, step)
  {
    match step
    case Lookup(id, sender) =>
      var s' := Do(s, TtlCache.GetOp(sender, s.now));
      if TtlCache.Get(s.cache, sender, s.now).1.Some? then s' else s'.(flights := s.flights[id := Asked(sender)])
    case ReadUser(id) => s.(flights := s.flights[id := Read(s.db, s.flights[id])])
    case ReadLink(id) => s.(flights := s.flights[id := Read(s.db, s.flights[id])])
    case ReadRows(id) => s.(flights := s.flights[id := Read(s.db, s.flights[id])])
    case Save(id) =>
      var f := s.flights[id];
      Do(s, SaveOp(s, f)).(
        flights := s.flights - {id}, overtaken := s.overtaken - {id},
        doubtful := if id in s.overtaken then s.doubtful + {f.sender} else s.doubtful - {f.sender})
    case Fail(id) => s.(flights := s.flights - {id}, overtaken := s.overtaken - {id})
    case Commit(op, u, change) =>
      var (db, committed) := Store.WriteTx(s.db, Coherence.Transaction(u, change));
      var key := s.db.users[u].chzzkId;
      if committed then
        s.(db := db, pending := s.pending[op := key],
           overtaken := s.overtaken + SendersOf(s.flights, key), doubtful := s.doubtful + {key})
      else s
    case Invalidate(op) =>
      Do(s, TtlCache.DeleteOp(s.pending[op])).(pending := s.pending - {op}, doubtful := s.doubtful - {s.pending[op]})
    case Login(chzzkId, nickname) => s.(db := Coherence.AfterLogin(s.db, chzzkId, nickname))
    case Tick(elapsed) => s.(now := s.now + elapsed)
  }

  function Start(db: Store.Db, now: int): State {
    State(db, [], now, map[], map[], {}, {}, [])
  }

  predicate IsRun(s: State, steps: seq<Step>)
    decreases |steps|
  {
    steps == [] || (Enabled(s, steps[0]) && IsRun(Apply(s, steps[0]), steps[1..]))
  }

  function Run(s: State, steps: seq<Step>): State
    requires IsRun(s, steps)
    decreases |steps|
  {
    if steps == [] then s else Run(Apply(s, steps[0]), steps[1..])
  }

  // ----- The invariant -----

  /** What the resolution has read is still so. */
  ghost predicate UpToDate(db: Store.Db, f: Flight) {
    && f.sender != ""
    && (f.Known? || f.Active? ==>
          f.user < |db.users| && f.user == Store.FindUser(db.users, f.sender)
              && f.preferred == db.users[f.user].preferred)
    && (f.Active? ==> Store.HasActiveLink(db, f.user))
    && (f.Ready? ==> f.res == Resolver.Fresh(db, f.sender))
  }

  ghost predicate FlightsOk(s: State) {
    forall id <- s.flights :: id !in s.overtaken ==> UpToDate(s.db, s.flights[id])
  }

  ghost predicate CacheOk(s: State) {
    forall i :: 0 <= i < |s.cache| && s.cache[i].key !in s.doubtful ==>
      s.cache[i].value == Resolver.Fresh(s.db, s.cache[i].key)
  }

  ghost predicate HistoryOk(s: State) {
    && s.cache == TtlCache.Run(Resolver.MAX_ENTRIES, s.history)
    && forall i :: 0 <= i < |s.history| && s.history[i].SetOp? ==>
         s.history[i].at <= s.now && s.history[i].ttl == Resolver.Ttl(s.history[i].value.status)
  }

  ghost predicate Inv(s: State) {
    && s.db.Ok() && s.overtaken <= s.flights.Keys
    && TtlCache.Distinct(s.cache) && |s.cache| <= Resolver.MAX_ENTRIES
    && FlightsOk(s) && CacheOk(s) && HistoryOk(s)
  }

  lemma DoKeeps(s: State, op: TtlCache.Op<Resolution>)
    requires TtlCache.Distinct(s.cache) && |s.cache| <= Resolver.MAX_ENTRIES && HistoryOk(s)
    requires op.SetOp? ==> op.at <= s.now && op.ttl == Resolver.Ttl(op.value.status)
    ensures var s' := Do(s, op); TtlCache.Distinct(s'.cache) && |s'.cache| <= Resolver.MAX_ENTRIES && HistoryOk(s')
  {
    TtlCache.StepKeeps(Resolver.MAX_ENTRIES, s.cache, op);
    var h := s.history + [op];
    assert h[..|h| - 1] == s.history;
  }

  lemma ReadIsUpToDate(db: Store.Db, f: Flight)
    requires UpToDate(db, f)
    ensures UpToDate(db, Read(db, f)) && Read(db, f).sender == f.sender
  {
  }

  lemma LookupKeeps(s: State, id: nat, sender: string)
    requires Inv(s) && Enabled(s, Lookup(id, sender))
    ensures Inv(Apply(s, Lookup(id, sender)))
  {
    var op := TtlCache.GetOp(sender, s.now);
    DoKeeps(s, op);
    var s' := Apply(s, Lookup(id, sender));
    forall i | 0 <= i < |s'.cache| && s'.cache[i].key !in s'.doubtful
      ensures s'.cache[i].value == Resolver.Fresh(s'.db, s'.cache[i].key)
    {
      assert s'.cache[i] in s.cache;
    }
  }

  lemma ReadKeeps(s: State, id: nat)
    requires Inv(s) && id in s.flights
    ensures Inv(s.(flights := s.flights[id := Read(s.db, s.flights[id])]))
  {
    if id !in s.overtaken {
      ReadIsUpToDate(s.db, s.flights[id]);
    }
  }

  lemma SaveKeeps(s: State, id: nat)
    requires Inv(s) && Enabled(s, Save(id))
    ensures Inv(Apply(s, Save(id)))
  {
    var f := s.flights[id];
    var op := SaveOp(s, f);
    DoKeeps(s, op);
    var s' := Apply(s, Save(id));
    forall i | 0 <= i < |s'.cache| && s'.cache[i].key !in s'.doubtful
      ensures s'.cache[i].value == Resolver.Fresh(s'.db, s'.cache[i].key)
    {
      SetAddsOne(s, op, i);
    }
  }

  lemma SetAddsOne(s: State, op: TtlCache.Op<Resolution>, i: nat)
    requires op.SetOp? && TtlCache.Distinct(s.cache) && |s.cache| <= Resolver.MAX_ENTRIES && i < |Do(s, op).cache|
    ensures var e := Do(s, op).cache[i];
            if e.key == op.key then e.value == op.value else e in s.cache
  {
  }

  lemma CommitKeepsOther(s: State, u: nat, change: Coherence.Change, f: Flight)
    requires u < |s.db.users| && UpToDate(s.db, f) && f.sender != s.db.users[u].chzzkId
    requires Store.ExecAll(s.db, Coherence.Transaction(u, change)).Some?
    ensures UpToDate(Store.ExecAll(s.db, Coherence.Transaction(u, change)).value, f)
  {
    var sts := Coherence.Transaction(u, change);
    var db' := Store.ExecAll(s.db, sts).value;
    Coherence.TransactionIsForOne(u, change);
    var w := Store.FindUser(s.db.users, f.sender);
    Coherence.StatementsTouchOne(s.db, u, sts, w);
    Coherence.FindUserIs(db'.users, f.sender, w);
    Coherence.OthersKeepTheirAnswer(s.db, u, sts, f.sender);
  }

  lemma CommitKeeps(s: State, op: nat, u: nat, change: Coherence.Change)
    requires Inv(s) && Enabled(s, Commit(op, u, change))
    ensures Inv(Apply(s, Commit(op, u, change)))
  {
    var sts := Coherence.Transaction(u, change);
    var s' := Apply(s, Commit(op, u, change));
    if Store.ExecAll(s.db, sts).Some? {
      Coherence.TransactionIsForOne(u, change);
      Store.ExecAllKeepsOk(s.db, sts);
      forall id <- s'.flights | id !in s'.overtaken ensures UpToDate(s'.db, s'.flights[id]) {
        CommitKeepsOther(s, u, change, s.flights[id]);
      }
      forall i | 0 <= i < |s'.cache| && s'.cache[i].key !in s'.doubtful
        ensures s'.cache[i].value == Resolver.Fresh(s'.db, s'.cache[i].key)
      {
        Coherence.OthersKeepTheirAnswer(s.db, u, sts, s.cache[i].key);
      }
    }
  }

  lemma InvalidateKeeps(s: State, op: nat)
    requires Inv(s) && Enabled(s, Invalidate(op))
    ensures Inv(Apply(s, Invalidate(op)))
  {
    var key := s.pending[op];
    DoKeeps(s, TtlCache.DeleteOp(key));
    Coherence.DeletedIsGone(s.cache, key);
    var s' := Apply(s, Invalidate(op));
    forall i | 0 <= i < |s'.cache| && s'.cache[i].key !in s'.doubtful
      ensures s'.cache[i].value == Resolver.Fresh(s'.db, s'.cache[i].key)
    {
      assert s'.cache[i] in s.cache;
    }
  }

  lemma LoginKeepsFlight(db: Store.Db, chzzkId: string, nickname: string, f: Flight)
    requires db.Ok() && UpToDate(db, f)
    ensures UpToDate(Coherence.AfterLogin(db, chzzkId, nickname), f)
  {
    var db' := Coherence.AfterLogin(db, chzzkId, nickname);
    Coherence.LoginAddsOrRenames(db, chzzkId, nickname);
    Coherence.LoginKeepsAnswers(db, chzzkId, nickname, f.sender);
    if f.Known? || f.Active? {
      Coherence.FindUserIs(db'.users, f.sender, f.user);
    }
  }

  lemma LoginKeeps(s: State, chzzkId: string, nickname: string)
    requires Inv(s)
    ensures Inv(Apply(s, Login(chzzkId, nickname)))
  {
    var sts := [Store.UpsertUser(chzzkId, nickname)];
    if Store.ExecAll(s.db, sts).Some? {
      Store.ExecAllKeepsOk(s.db, sts);
    }
    var s' := Apply(s, Login(chzzkId, nickname));
    forall id <- s'.flights | id !in s'.overtaken ensures UpToDate(s'.db, s'.flights[id]) {
      LoginKeepsFlight(s.db, chzzkId, nickname, s.flights[id]);
    }
    forall i | 0 <= i < |s'.cache| && s'.cache[i].key !in s'.doubtful
      ensures s'.cache[i].value == Resolver.Fresh(s'.db, s'.cache[i].key)
    {
      Coherence.LoginKeepsAnswers(s.db, chzzkId, nickname, s.cache[i].key);
    }
  }

  lemma StepKeeps(s: State, step: Step)
    requires Inv(s) && Enabled(s, step)
    ensures Inv(Apply(s, step))
  {
    match step
    case Lookup(id, sender) => LookupKeeps(s, id, sender);
    case ReadUser(id) => ReadKeeps(s, id);
    case ReadLink(id) => ReadKeeps(s, id);
    case ReadRows(id) => ReadKeeps(s, id);
    case Save(id) => SaveKeeps(s, id);
    case Fail(id) =>
    case Commit(op, u, change) => CommitKeeps(s, op, u, change);
    case Invalidate(op) => InvalidateKeeps(s, op);
    case Login(chzzkId, nickname) => LoginKeeps(s, chzzkId, nickname);
    case Tick(_) =>
  }

  lemma {:induction false} RunKeeps(s: State, steps: seq<Step>)
    requires Inv(s) && IsRun(s, steps)
    ensures Inv(Run(s, steps))
    decreases |steps|
  {
    if steps != [] {
      StepKeeps(s, steps[0]);
      RunKeeps(Apply(s, steps[0]), steps[1..]);
    }
  }

  // ----- Theorems -----

  /**
   * Under every interleaving, an answer from the cache is at most as old as its time to live: it was
   * stored by the latest Set of its sender, less than five minutes ago, and not invalidated since.
   */
  lemma StaleIsShortLived(db: Store.Db, now: int, steps: seq<Step>, sender: string) returns (i: nat)
    requires db.Ok() && IsRun(Start(db, now), steps)
    requires TtlCache.Get(Run(Start(db, now), steps).cache, sender, Run(Start(db, now), steps).now).1.Some?
    ensures var s := Run(Start(db, now), steps);
            var res := TtlCache.Get(s.cache, sender, s.now).1.value;
            && i < |s.history| && s.history[i].SetOp? && s.history[i].key == sender && s.history[i].value == res
            && s.history[i].at <= s.now < s.history[i].at + s.history[i].ttl
            && s.history[i].ttl == (match res.status case Linked => 300 case Unsynced => 15 case Unlinked => 10)
            && forall j :: i < j < |s.history| && !s.history[j].GetOp? ==> s.history[j].key != sender
  {
    RunKeeps(Start(db, now), steps);
    var s := Run(Start(db, now), steps);
    i := TtlCache.HitIsLatestSet(Resolver.MAX_ENTRIES, s.history, sender, s.now);
  }

  /** No change commits while a resolution of its own sender is under way. */
  predicate Calm(s: State, steps: seq<Step>)
    requires IsRun(s, steps)
    decreases |steps|
  {
    steps == [] ||
    (&& (steps[0].Commit? ==> SendersOf(s.flights, s.db.users[steps[0].user].chzzkId) == {})
     && Calm(Apply(s, steps[0]), steps[1..]))
  }

  /** Doubt only comes from changes that have not invalidated yet. */
  ghost predicate OnlyPendingDoubt(s: State) {
    s.overtaken == {} && forall key <- s.doubtful :: exists op :: op in s.pending && s.pending[op] == key
  }

  lemma CalmStep(s: State, step: Step)
    requires Enabled(s, step) && OnlyPendingDoubt(s)
    requires step.Commit? ==> SendersOf(s.flights, s.db.users[step.user].chzzkId) == {}
    ensures OnlyPendingDoubt(Apply(s, step))
  {
    var s' := Apply(s, step);
    forall key | key in s'.doubtful ensures exists op :: op in s'.pending && s'.pending[op] == key {
      if key in s.doubtful {
        var op :| op in s.pending && s.pending[op] == key;
        assert op in s'.pending && s'.pending[op] == key;
      } else {
        assert step.op in s'.pending && s'.pending[step.op] == key;
      }
    }
  }

  lemma {:induction false} CalmRun(s: State, steps: seq<Step>)
    requires IsRun(s, steps) && OnlyPendingDoubt(s) && Calm(s, steps)
    ensures OnlyPendingDoubt(Run(s, steps))
    decreases |steps|
  {
    if steps != [] {
      CalmStep(s, steps[0]);
      CalmRun(Apply(s, steps[0]), steps[1..]);
    }
  }

  /**
   * As long as no change overtakes a resolution of its own sender, a cached answer differs from a
   * fresh one only while a change of that sender has yet to invalidate.
   */
  lemma CalmMeansFresh(db: Store.Db, now: int, steps: seq<Step>, sender: string)
    requires db.Ok() && IsRun(Start(db, now), steps) && Calm(Start(db, now), steps)
    requires TtlCache.Has(Run(Start(db, now), steps).cache, sender)
    ensures var s := Run(Start(db, now), steps);
            var e := s.cache[TtlCache.Pos(s.cache, sender)];
            e.value == Resolver.Fresh(s.db, sender) || exists op :: op in s.pending && s.pending[op] == sender
  {
    RunKeeps(Start(db, now), steps);
    CalmRun(Start(db, now), steps);
  }

  const RACE_DB := Store.Db([Store.User("c", "n", None)], map[], map[])
  const RACE_READS: seq<Step> := [Lookup(0, "c"), ReadUser(0), ReadLink(0)]
  const RACE_WRITES: seq<Step> := [Commit(0, 0, Coherence.Connect("v", 1)), Invalidate(0), Save(0)]

  lemma RaceReads()
    ensures IsRun(Start(RACE_DB, 0), RACE_READS)
    ensures Run(Start(RACE_DB, 0), RACE_READS) ==
            Start(RACE_DB, 0).(flights := map[0 := Ready("c", UNLINKED)], history := [TtlCache.GetOp("c", 0)])
  {
    var s1 := Apply(Start(RACE_DB, 0), Lookup(0, "c"));
    assert s1.flights == map[0 := Asked("c")] && s1.cache == [];
    var s2 := Apply(s1, ReadUser(0));
    assert s2.flights == map[0 := Known("c", 0, None)];
    var s3 := Apply(s2, ReadLink(0));
    assert s3.flights == map[0 := Ready("c", UNLINKED)];
    assert RACE_READS[1..][1..] == [ReadLink(0)];
    assert Run(s2, [ReadLink(0)]) == s3;
  }

  lemma RaceWrites(s: State)
    requires s.db == RACE_DB && s.cache == [] && s.flights == map[0 := Ready("c", UNLINKED)] && s.pending == map[]
    ensures IsRun(s, RACE_WRITES)
    ensures var s' := Run(s, RACE_WRITES);
            && s'.db == RACE_DB.(links := map[0 := Store.Link("v", 1, true)])
            && s'.pending == map[] && s'.flights == map[]
            && s'.cache == [TtlCache.Entry("c", UNLINKED, s.now + 10)] && s'.now == s.now
  {
    var sts := Coherence.Transaction(0, Coherence.Connect("v", 1));
    var db := RACE_DB.(links := map[0 := Store.Link("v", 1, true)]);
    assert Store.Exec(RACE_DB, sts[0]) == Some(db) && sts[1..] == [];
    assert Store.ExecAll(db, []) == Some(db);
    var s4 := Apply(s, RACE_WRITES[0]);
    assert s4.db == db && s4.pending == map[0 := "c"] && s4.cache == [];
    var s5 := Apply(s4, Invalidate(0));
    var s6 := Apply(s5, Save(0));
    assert RACE_WRITES[1..][1..] == [Save(0)];
    assert Run(s5, [Save(0)]) == s6;
  }

  lemma {:induction false} RunsJoin(s: State, a: seq<Step>, b: seq<Step>)
    requires IsRun(s, a) && IsRun(Run(s, a), b)
    ensures IsRun(s, a + b) && Run(s, a + b) == Run(Run(s, a), b)
    decreases |a|
  {
    if a == [] {
      assert a + b == b;
    } else {
      assert (a + b)[1..] == a[1..] + b;
      RunsJoin(Apply(s, a[0]), a[1..], b);
    }
  }

  lemma {:induction false} NoRowsNoClasses(buttons: seq<int>)
    ensures Store.RowsAt(map[], buttons) == []
  {
    if buttons != [] {
      NoRowsNoClasses(buttons[1..]);
    }
  }

  lemma LinkedButUnsynced(db: Store.Db)
    requires db == RACE_DB.(links := map[0 := Store.Link("v", 1, true)])
    ensures Resolver.Fresh(db, "c") == Resolution(Unsynced, None)
  {
    assert Store.FindUser(db.users, "c") == 0;
    NoRowsNoClasses([4, 5, 6, 8]);
  }

  /**
   * One overtaken resolution is enough to leave a wrong answer behind with nothing pending: a user
   * links and invalidates between the reads and the Set of a resolution.
   */
  lemma RaceLeavesStaleAnswer()
    ensures IsRun(Start(RACE_DB, 0), RACE_READS + RACE_WRITES)
    ensures var s := Run(Start(RACE_DB, 0), RACE_READS + RACE_WRITES);
            && s.pending == map[] && s.flights == map[]
            && TtlCache.Get(s.cache, "c", s.now).1 == Some(UNLINKED)
            && Resolver.Fresh(s.db, "c").status == Unsynced
  {
    RaceReads();
    RaceWrites(Run(Start(RACE_DB, 0), RACE_READS));
    RunsJoin(Start(RACE_DB, 0), RACE_READS, RACE_WRITES);
    LinkedButUnsynced(RACE_DB.(links := map[0 := Store.Link("v", 1, true)]));
  }
}

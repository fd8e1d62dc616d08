/**
 * What chat shows after a link operation (internal/link/link.go, internal/resolver/resolver.go), over
 * runs of whole operations: the next resolutions, cached or not, display exactly what was stored, until
 * the user's own next change.
 */
module CoherenceSeen {
  import opened Coherence
  import opened ResolverTypes
  import opened Wrappers
  import DjClass
  import Resolver
  import Store
  import TtlCache

  /** After any run from an empty cache, an answer displays what the tables hold. */
  lemma AnswersDisplay(db: Store.Db, steps: seq<Step>, sender: string, now: int)
    requires db.Ok() && IsRun(State(db, []), steps)
    ensures var s := Run(State(db, []), steps);
            Resolver.Displays(s.db, sender, Resolver.Resolve(s.db, s.cache, sender, now).1)
  {
    RunKeeps(State(db, []), steps);
    AnswerDisplays(Run(State(db, []), steps), sender, now);
  }

  lemma AnswerDisplays(s: State, sender: string, now: int)
    requires Coherent(s)
    ensures Resolver.Displays(s.db, sender, Resolver.Resolve(s.db, s.cache, sender, now).1)
  {
    AskIsFresh(s, sender, now);
    Resolver.FreshDisplays(s.db, sender);
  }

  /** A fresh answer is kept for exactly five minutes if linked, 15 seconds if unsynced, 10 if unlinked. */
  lemma AnswersAreKept(s: State, sender: string, now: int, later: int)
    requires Coherent(s) && sender != "" && TtlCache.Get(s.cache, sender, now).1 == None
    ensures var (cache, res) := Resolver.Resolve(s.db, s.cache, sender, now);
            var ttl := match res.status case Linked => 300 case Unsynced => 15 case Unlinked => 10;
            TtlCache.Get(cache, sender, later).1 == if later < now + ttl then Some(res) else None
  {
    var res := Resolver.Fresh(s.db, sender);
    var kept := TtlCache.Get(s.cache, sender, now).0;
    var ttl := Resolver.Ttl(res.status);
    TtlCache.StepKeeps(Resolver.MAX_ENTRIES, s.cache, TtlCache.GetOp(sender, now));
    TtlCache.StepKeeps(Resolver.MAX_ENTRIES, kept, TtlCache.SetOp(sender, res, now, ttl));
    TtlCache.GetAnswers(TtlCache.Set(Resolver.MAX_ENTRIES, kept, sender, res, now, ttl),
      TtlCache.Entry(sender, res, now + ttl), later);
  }

  /** What the tables hold about user u. */
  datatype Record = Record(key: string, preferred: Option<int>, active: bool, rows: map<int, Store.ClassRow>)

  predicate Holds(db: Store.Db, u: nat, r: Record) {
    && u < |db.users| && db.users[u].chzzkId == r.key && db.users[u].preferred == r.preferred
    && (u in db.links && db.links[u].active <==> r.active)
    && (if u in db.classes then db.classes[u] else map[]) == r.rows
  }

  predicate Spares(steps: seq<Step>, u: nat) {
    forall i :: 0 <= i < |steps| ==> !(steps[i].Write? && steps[i].user == u)
  }

  /** Other users' changes, logins and resolutions leave the record of u alone. */
  lemma SparedStep(s: State, step: Step, u: nat, r: Record)
    requires Enabled(s, step) && Holds(s.db, u, r) && !(step.Write? && step.user == u)
    ensures Holds(Apply(s, step).db, u, r)
  {
    if step.Write? {
      TransactionIsForOne(step.user, step.change);
      if Store.ExecAll(s.db, Transaction(step.user, step.change)).Some? {
        StatementsTouchOne(s.db, step.user, Transaction(step.user, step.change), u);
      }
    } else if step.Login? {
      LoginAddsOrRenames(s.db, step.chzzkId, step.nickname);
    }
  }

  lemma {:induction false} SparedRun(s: State, steps: seq<Step>, u: nat, r: Record)
    requires IsRun(s, steps) && Spares(steps, u) && Holds(s.db, u, r)
    ensures Holds(Run(s, steps).db, u, r)
    decreases |steps|
  {
    if steps != [] {
      SparedStep(s, steps[0], u, r);
      SparedRun(Apply(s, steps[0]), steps[1..], u, r);
    }
  }

  /** What chat shows of a user with this record. */
  ghost predicate ShownAs(r: Record, res: Resolution) {
    if !r.active then res.status == Unlinked && res.badge == None
    else if r.rows == map[] then res.status == Unsynced && res.badge == None
    else res.status == Linked && res.badge.Some? && Resolver.BadgesOf(r.rows, r.preferred, res.badge.value)
  }

  lemma RecordIsShown(s: State, u: nat, r: Record, now: int)
    requires Coherent(s) && Holds(s.db, u, r) && r.key != ""
    ensures ShownAs(r, Resolver.Resolve(s.db, s.cache, r.key, now).1)
  {
    AnswerDisplays(s, r.key, now);
    FindUserIs(s.db.users, r.key, u);
  }

  /** A record that a step has just left is what chat shows from then on. */
  lemma ShownFromThenOn(s: State, steps: seq<Step>, u: nat, r: Record, now: int)
    requires Coherent(s) && Holds(s.db, u, r) && r.key != "" && IsRun(s, steps) && Spares(steps, u)
    ensures ShownAs(r, Resolver.Resolve(Run(s, steps).db, Run(s, steps).cache, r.key, now).1)
  {
    RunKeeps(s, steps);
    SparedRun(s, steps, u, r);
    RecordIsShown(Run(s, steps), u, r, now);
  }

  // ----- What each operation leaves -----

  lemma OneStatement(db: Store.Db, st: Store.Statement)
    ensures Store.WriteTx(db, [st]) ==
            (if Store.Exec(db, st).Some? then (Store.Exec(db, st).value, true) else (db, false))
  {
    assert [st][1..] == [];
    assert Store.Exec(db, st).Some? ==> Store.ExecAll(Store.Exec(db, st).value, []) == Store.Exec(db, st);
  }

  lemma PreferLeaves(db: Store.Db, u: nat, r: Record, button: Option<int>)
    requires Holds(db, u, r) && (button.Some? ==> button.value in {4, 5, 6, 8})
    ensures Holds(Store.WriteTx(db, Transaction(u, Prefer(button))).0, u, r.(preferred := button))
  {
    OneStatement(db, Store.SetPreferredButton(u, button));
  }

  lemma ConnectLeaves(db: Store.Db, u: nat, r: Record, nickname: string, userNo: int)
    requires Holds(db, u, r)
    ensures Holds(Store.WriteTx(db, Transaction(u, Connect(nickname, userNo))).0, u, r.(active := true))
  {
    OneStatement(db, Store.UpsertLink(u, nickname, userNo));
  }

  lemma UnlinkLeaves(db: Store.Db, u: nat, r: Record)
    requires Holds(db, u, r)
    ensures Holds(Store.WriteTx(db, Transaction(u, Unlink)).0, u, Record(r.key, None, false, map[]))
  {
    var sts := Store.UnlinkTx(u);
    var db1 := Store.Exec(db, sts[0]).value;
    var db2 := Store.Exec(db1, sts[1]).value;
    var db3 := Store.Exec(db2, sts[2]).value;
    assert sts[1..] == [sts[1], sts[2]] && sts[1..][1..] == [sts[2]];
    assert Store.ExecAll(db3, []) == Some(db3);
    assert Store.ExecAll(db2, [sts[2]]) == Some(db3);
    assert Store.ExecAll(db1, sts[1..]) == Some(db3);
  }

  /** rows holds exactly the classes. */
  ghost predicate HoldsClasses(rows: map<int, Store.ClassRow>, classes: seq<Store.ClassRow>) {
    && (forall c :: c in classes <==> c.button in rows && rows[c.button] == c)
    && (forall b <- rows :: rows[b].button == b)
  }

  lemma SyncLeaves(db: Store.Db, u: nat, r: Record, classes: seq<Store.ClassRow>)
    returns (rows: map<int, Store.ClassRow>)
    requires Holds(db, u, r) && IsFetch(classes)
    ensures HoldsClasses(rows, classes)
    ensures Holds(Store.WriteTx(db, Transaction(u, Sync(classes))).0, u, r.(rows := rows))
  {
    Store.SyncStoresTheFetch(db, u, classes);
    rows := Store.RowsOf(Store.WriteTx(db, Transaction(u, Sync(classes))).0, u);
  }

  // ----- Theorems -----

  /**
   * After an accepted preference, every resolution shows the viewer the badge of that button, as long as the
   * user has a class for it, and the automatic badge is what it was.
   */
  lemma PreferenceIsShown(s: State, u: nat, r: Record, button: int, after: seq<Step>, now: int)
    requires Coherent(s) && Holds(s.db, u, r) && r.active && r.key != "" && button in r.rows
    requires IsRun(Apply(s, Write(u, Prefer(Some(button)))), after) && Spares(after, u)
    ensures var t := Run(Apply(s, Write(u, Prefer(Some(button)))), after);
            var res := Resolver.Resolve(t.db, t.cache, r.key, now).1;
            && res.status == Linked && res.badge.Some?
            && res.badge.value.viewer.button == button
            && res.badge.value.viewer == DjClass.BuildBadge(Resolver.RowAt(r.rows, button))
            && exists b :: Resolver.IsHighest(r.rows, b)
                           && res.badge.value.auto == DjClass.BuildBadge(Resolver.RowAt(r.rows, b))
  {
    var s' := Apply(s, Write(u, Prefer(Some(button))));
    WriteKeeps(s, u, Prefer(Some(button)));
    PreferLeaves(s.db, u, r, Some(button));
    ShownFromThenOn(s', after, u, r.(preferred := Some(button)), now);
  }

  /** After an automatic preference, the viewer is shown the automatic badge. */
  lemma AutomaticIsShown(s: State, u: nat, r: Record, after: seq<Step>, now: int)
    requires Coherent(s) && Holds(s.db, u, r) && r.active && r.key != "" && r.rows != map[]
    requires IsRun(Apply(s, Write(u, Prefer(None))), after) && Spares(after, u)
    ensures var t := Run(Apply(s, Write(u, Prefer(None))), after);
            var res := Resolver.Resolve(t.db, t.cache, r.key, now).1;
            res.status == Linked && res.badge.Some? && res.badge.value.viewer == res.badge.value.auto
  {
    WriteKeeps(s, u, Prefer(None));
    PreferLeaves(s.db, u, r, None);
    ShownFromThenOn(Apply(s, Write(u, Prefer(None))), after, u, r.(preferred := None), now);
  }

  /** After an unlink the user is unlinked to every resolution, and has no active link to sync. */
  lemma UnlinkIsShown(s: State, u: nat, r: Record, after: seq<Step>, now: int)
    requires Coherent(s) && Holds(s.db, u, r) && r.key != ""
    requires IsRun(Apply(s, Write(u, Unlink)), after) && Spares(after, u)
    ensures var t := Run(Apply(s, Write(u, Unlink)), after);
            && Resolver.Resolve(t.db, t.cache, r.key, now).1 == Resolution(Unlinked, None)
            && Store.GetActiveLink(t.db, u) == None
  {
    WriteKeeps(s, u, Unlink);
    UnlinkLeaves(s.db, u, r);
    var r' := Record(r.key, None, false, map[]);
    ShownFromThenOn(Apply(s, Write(u, Unlink)), after, u, r', now);
    SparedRun(Apply(s, Write(u, Unlink)), after, u, r');
  }

  /** After a connect the user is linked: unsynced without classes, and shown with badges otherwise. */
  lemma ConnectIsShown(s: State, u: nat, r: Record, nickname: string, userNo: int, after: seq<Step>, now: int)
    requires Coherent(s) && Holds(s.db, u, r) && r.key != ""
    requires IsRun(Apply(s, Write(u, Connect(nickname, userNo))), after) && Spares(after, u)
    ensures var t := Run(Apply(s, Write(u, Connect(nickname, userNo))), after);
            var res := Resolver.Resolve(t.db, t.cache, r.key, now).1;
            res.status == if r.rows == map[] then Unsynced else Linked
  {
    WriteKeeps(s, u, Connect(nickname, userNo));
    ConnectLeaves(s.db, u, r, nickname, userNo);
    ShownFromThenOn(Apply(s, Write(u, Connect(nickname, userNo))), after, u, r.(active := true), now);
  }

  /** After a sync of a linked user, the badges are built from exactly the fetched classes. */
  lemma SyncIsShown(s: State, u: nat, r: Record, classes: seq<Store.ClassRow>, after: seq<Step>, now: int)
    requires Coherent(s) && Holds(s.db, u, r) && r.active && r.key != "" && IsFetch(classes) && classes != []
    requires IsRun(Apply(s, Write(u, Sync(classes))), after) && Spares(after, u)
    ensures var t := Run(Apply(s, Write(u, Sync(classes))), after);
            var res := Resolver.Resolve(t.db, t.cache, r.key, now).1;
            && res.status == Linked && res.badge.Some?
            && exists rows :: HoldsClasses(rows, classes) && Resolver.BadgesOf(rows, r.preferred, res.badge.value)
  {
    WriteKeeps(s, u, Sync(classes));
    var rows := SyncLeaves(s.db, u, r, classes);
    assert classes[0] in classes && classes[0].button in rows;
    ShownFromThenOn(Apply(s, Write(u, Sync(classes))), after, u, r.(rows := rows), now);
  }
}

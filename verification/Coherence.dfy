/**
 * The badge cache agrees with the tables (internal/resolver/resolver.go, internal/link/link.go):
 * runs in which a resolution is one step, and a committed change and its invalidation are one step.
 */
module Coherence {
  import opened Wrappers
  import opened ResolverTypes
  import DjClass
  import Resolver
  import Store
  import TtlCache

  /** The committed change of one user: a link, a sync, an unlink or a preference. */
  datatype Change =
    | Connect(nickname: string, userNo: int)
    | Sync(classes: seq<Store.ClassRow>)
    | Unlink
    | Prefer(button: Option<int>)

  function Transaction(u: nat, c: Change): seq<Store.Statement> {
    match c
    case Connect(nickname, userNo) => Store.LinkTx(u, nickname, userNo)
    case Sync(classes) => Store.SyncTx(u, classes)
    case Unlink => Store.UnlinkTx(u)
    case Prefer(button) => Store.PreferTx(u, button)
  }

  datatype State = State(db: Store.Db, cache: Resolver.Cache)

  datatype Step =
    | Ask(sender: string, now: int)
    | Write(user: nat, change: Change)
    | Login(chzzkId: string, nickname: string)

  /** A write is always for a user that exists. */
  predicate Enabled(s: State, step: Step) {
    step.Write? ==> step.user < |s.db.users|
  }

  /** A commit drops what is cached for its user; a transaction that fails leaves everything as it was. */
  function Written(s: State, u: nat, change: Change): (State, bool)
    requires u < |s.db.users|
  {
    var (db, committed) := Store.WriteTx(s.db, Transaction(u, change));
    (State(db, if committed then TtlCache.Delete(s.cache, s.db.users[u].chzzkId) else s.cache), committed)
  }

  function Apply(s: State, step: Step): State
    requires Enabled(s, step)
  {
    match step
    case Ask(sender, now) => State(s.db, Resolver.Resolve(s.db, s.cache, sender, now).0)
    case Write(u, change) => Written(s, u, change).0
    case Login(chzzkId, nickname) =>
      State(AfterLogin(s.db, chzzkId, nickname), s.cache)
  }

  predicate IsRun(s: State, steps: seq<Step>)
    decreases |steps|
  {
    steps == [] || (Enabled(s, steps[0]) && IsRun(Apply(s, steps[0]), steps[1..]))
  }

  function Run(s: State, steps: seq<Step>): State
    requires IsRun(s, steps)
    decreases |steps|
  {
    if steps == [] then s else Run(Apply(s, steps[0]), steps[1..])
  }

  // ----- What a statement can change -----

  predicate OnlyFor(u: nat, st: Store.Statement) {
    !st.UpsertUser? && st.user == u
  }

  lemma TransactionIsForOne(u: nat, c: Change)
    ensures forall i :: 0 <= i < |Transaction(u, c)| ==> OnlyFor(u, Transaction(u, c)[i])
  {
  }

  /** Same users, in the same places. */
  ghost predicate SameIds(db: Store.Db, db': Store.Db) {
    |db.users| == |db'.users| && forall i :: 0 <= i < |db.users| ==> db.users[i].chzzkId == db'.users[i].chzzkId
  }

  lemma FindUserIs(users: seq<Store.User>, key: string, u: nat)
    requires u <= |users| && (u < |users| ==> users[u].chzzkId == key)
    requires forall i :: 0 <= i < u ==> users[i].chzzkId != key
    ensures Store.FindUser(users, key) == u
  {
  }

  /** What the resolver reads about user w is the same in both. */
  ghost predicate SameView(db: Store.Db, db': Store.Db, w: nat) {
    && w < |db.users| && w < |db'.users|
    && Store.HasActiveLink(db, w) == Store.HasActiveLink(db', w)
    && Store.RowsOf(db, w) == Store.RowsOf(db', w)
    && db.users[w].preferred == db'.users[w].preferred
  }

  lemma StatementTouchesOne(db: Store.Db, u: nat, st: Store.Statement, w: nat)
    requires OnlyFor(u, st) && u < |db.users| && Store.Exec(db, st).Some?
    ensures SameIds(db, Store.Exec(db, st).value)
    ensures w != u && w < |db.users| ==> SameView(db, Store.Exec(db, st).value, w)
  {
  }

  lemma {:induction false} StatementsTouchOne(db: Store.Db, u: nat, sts: seq<Store.Statement>, w: nat)
    requires forall i :: 0 <= i < |sts| ==> OnlyFor(u, sts[i])
    requires u < |db.users| && Store.ExecAll(db, sts).Some?
    ensures SameIds(db, Store.ExecAll(db, sts).value)
    ensures w != u && w < |db.users| ==> SameView(db, Store.ExecAll(db, sts).value, w)
    decreases |sts|
  {
    if sts != [] {
      StatementTouchesOne(db, u, sts[0], w);
      StatementsTouchOne(Store.Exec(db, sts[0]).value, u, sts[1..], w);
    }
  }

  lemma SameViewSameAnswer(db: Store.Db, db': Store.Db, w: nat)
    requires SameView(db, db', w)
    ensures Resolver.ResolveUser(db, w) == Resolver.ResolveUser(db', w)
  {
  }

  /** Statements for one user change nobody else's answer. */
  lemma OthersKeepTheirAnswer(db: Store.Db, u: nat, sts: seq<Store.Statement>, sender: string)
    requires forall i :: 0 <= i < |sts| ==> OnlyFor(u, sts[i])
    requires u < |db.users| && Store.ExecAll(db, sts).Some? && sender != db.users[u].chzzkId
    ensures Resolver.Fresh(Store.ExecAll(db, sts).value, sender) == Resolver.Fresh(db, sender)
  {
    var db' := Store.ExecAll(db, sts).value;
    var w := Store.FindUser(db.users, sender);
    StatementsTouchOne(db, u, sts, w);
    FindUserIs(db'.users, sender, w);
    if w < |db.users| {
      SameViewSameAnswer(db, db', w);
    }
  }

  function AfterLogin(db: Store.Db, chzzkId: string, nickname: string): Store.Db {
    Store.WriteTx(db, [Store.UpsertUser(chzzkId, nickname)]).0
  }

  lemma LoginAddsOrRenames(db: Store.Db, chzzkId: string, nickname: string)
    ensures var db', u := AfterLogin(db, chzzkId, nickname), Store.FindUser(db.users, chzzkId);
            && db'.links == db.links && db'.classes == db.classes
            && (u < |db.users| ==> db'.users == db.users[u := db.users[u].(nickname := nickname)])
            && (u == |db.users| ==> db'.users == db.users + [Store.User(chzzkId, nickname, None)])
  {
    var st := Store.UpsertUser(chzzkId, nickname);
    assert Store.ExecAll(db, [st]) == Store.Exec(db, st);
  }

  lemma LoginKeepsUsers(db: Store.Db, chzzkId: string, nickname: string, sender: string)
    requires Store.FindUser(db.users, sender) < |db.users|
    ensures Resolver.Fresh(AfterLogin(db, chzzkId, nickname), sender) == Resolver.Fresh(db, sender)
  {
    var db' := AfterLogin(db, chzzkId, nickname);
    var w := Store.FindUser(db.users, sender);
    LoginAddsOrRenames(db, chzzkId, nickname);
    FindUserIs(db'.users, sender, w);
    SameViewSameAnswer(db, db', w);
  }

  lemma LoginKeepsStrangers(db: Store.Db, chzzkId: string, nickname: string, sender: string)
    requires db.Ok() && Store.FindUser(db.users, sender) == |db.users|
    ensures Resolver.Fresh(AfterLogin(db, chzzkId, nickname), sender) == UNLINKED
  {
    var db' := AfterLogin(db, chzzkId, nickname);
    LoginAddsOrRenames(db, chzzkId, nickname);
    if sender == chzzkId {
      FindUserIs(db'.users, sender, |db.users|);
      assert |db.users| !in db'.links;
    } else {
      FindUserIs(db'.users, sender, |db'.users|);
    }
  }

  /** A login changes nobody's answer: it renames a user, or adds one who has no link yet. */
  lemma LoginKeepsAnswers(db: Store.Db, chzzkId: string, nickname: string, sender: string)
    requires db.Ok()
    ensures Resolver.Fresh(AfterLogin(db, chzzkId, nickname), sender) == Resolver.Fresh(db, sender)
  {
    if Store.FindUser(db.users, sender) < |db.users| {
      LoginKeepsUsers(db, chzzkId, nickname, sender);
    } else {
      LoginKeepsStrangers(db, chzzkId, nickname, sender);
    }
  }

  // ----- The invariant -----

  /** Every cached answer is what a fresh resolution would give. */
  ghost predicate Agrees(db: Store.Db, cache: Resolver.Cache) {
    forall i :: 0 <= i < |cache| ==> cache[i].value == Resolver.Fresh(db, cache[i].key)
  }

  ghost predicate Coherent(s: State) {
    s.db.Ok() && TtlCache.Distinct(s.cache) && |s.cache| <= Resolver.MAX_ENTRIES && Agrees(s.db, s.cache)
  }

  lemma AskIsFresh(s: State, sender: string, now: int)
    requires Coherent(s)
    ensures Coherent(Apply(s, Ask(sender, now)))
    ensures Resolver.Resolve(s.db, s.cache, sender, now).1 == Resolver.Fresh(s.db, sender)
  {
    if sender != "" {
      TtlCache.StepKeeps(Resolver.MAX_ENTRIES, s.cache, TtlCache.GetOp(sender, now));
      var (kept, hit) := TtlCache.Get(s.cache, sender, now);
      assert forall i :: 0 <= i < |kept| ==> kept[i] in s.cache;
      if hit.None? {
        var res := Resolver.Fresh(s.db, sender);
        var ttl := Resolver.Ttl(res.status);
        TtlCache.StepKeeps(Resolver.MAX_ENTRIES, kept, TtlCache.SetOp(sender, res, now, ttl));
        var cache := TtlCache.Set(Resolver.MAX_ENTRIES, kept, sender, res, now, ttl);
        forall i | 0 <= i < |cache| ensures cache[i].value == Resolver.Fresh(s.db, cache[i].key) {
          assert cache[i] == TtlCache.Entry(sender, res, now + ttl) || cache[i] in kept;
        }
      }
    }
  }

  lemma {:induction false} WriteKeeps(s: State, u: nat, change: Change)
    requires Coherent(s) && u < |s.db.users|
    ensures Coherent(Apply(s, Write(u, change)))
  {
    var sts := Transaction(u, change);
    var s' := Apply(s, Write(u, change));
    if Store.ExecAll(s.db, sts).Some? {
      TransactionIsForOne(u, change);
      Store.ExecAllKeepsOk(s.db, sts);
      var key := s.db.users[u].chzzkId;
      TtlCache.StepKeeps(Resolver.MAX_ENTRIES, s.cache, TtlCache.DeleteOp(key));
      forall i | 0 <= i < |s'.cache| ensures s'.cache[i].value == Resolver.Fresh(s'.db, s'.cache[i].key) {
        assert s'.cache[i] in s.cache;
        DeletedIsGone(s.cache, key);
        OthersKeepTheirAnswer(s.db, u, sts, s'.cache[i].key);
      }
    }
  }

  lemma DeletedIsGone(cache: Resolver.Cache, key: string)
    requires TtlCache.Distinct(cache)
    ensures forall i :: 0 <= i < |TtlCache.Delete(cache, key)| ==> TtlCache.Delete(cache, key)[i].key != key
  {
  }

  lemma LoginKeeps(s: State, chzzkId: string, nickname: string)
    requires Coherent(s)
    ensures Coherent(Apply(s, Login(chzzkId, nickname)))
  {
    var sts := [Store.UpsertUser(chzzkId, nickname)];
    if Store.ExecAll(s.db, sts).Some? {
      Store.ExecAllKeepsOk(s.db, sts);
    }
    var s' := Apply(s, Login(chzzkId, nickname));
    forall i | 0 <= i < |s.cache| ensures s.cache[i].value == Resolver.Fresh(s'.db, s.cache[i].key) {
      LoginKeepsAnswers(s.db, chzzkId, nickname, s.cache[i].key);
    }
  }

  lemma StepKeeps(s: State, step: Step)
    requires Coherent(s) && Enabled(s, step)
    ensures Coherent(Apply(s, step))
  {
    match step
    case Ask(sender, now) => AskIsFresh(s, sender, now);
    case Write(u, change) => WriteKeeps(s, u, change);
    case Login(chzzkId, nickname) => LoginKeeps(s, chzzkId, nickname);
  }

  lemma {:induction false} RunKeeps(s: State, steps: seq<Step>)
    requires Coherent(s) && IsRun(s, steps)
    ensures Coherent(Run(s, steps))
    decreases |steps|
  {
    if steps != [] {
      StepKeeps(s, steps[0]);
      RunKeeps(Apply(s, steps[0]), steps[1..]);
    }
  }

  /**
   * After any run from an empty cache, over any tables, the resolver answers exactly what a fresh
   * resolution would, whether or not it answers from the cache.
   */
  lemma CachedAnswersAreFresh(db: Store.Db, steps: seq<Step>, sender: string, now: int)
    requires db.Ok() && IsRun(State(db, []), steps)
    ensures var s := Run(State(db, []), steps);
            Resolver.Resolve(s.db, s.cache, sender, now).1 == Resolver.Fresh(s.db, sender)
  {
    RunKeeps(State(db, []), steps);
    AskIsFresh(Run(State(db, []), steps), sender, now);
  }

  // ----- A sync and the badge it leads to -----

  /** What a fetch returns: one class per real button at most. */
  predicate IsFetch(classes: seq<Store.ClassRow>) {
    && (forall i :: 0 <= i < |classes| ==> Store.RealButton(classes[i].button))
    && (forall i, j :: 0 <= i < j < |classes| ==> classes[i].button != classes[j].button)
  }

  /** The rows read back after a sync are the fetched classes, whatever was stored before. */
  lemma SyncReadsBack(db: Store.Db, u: nat, classes: seq<Store.ClassRow>)
    requires u < |db.users| && IsFetch(classes)
    ensures Store.WriteTx(db, Store.SyncTx(u, classes)).1
    ensures forall c :: c in classes <==> c in Store.ListDjClasses(Store.WriteTx(db, Store.SyncTx(u, classes)).0, u)
  {
    Store.SyncStoresTheFetch(db, u, classes);
    var db' := Store.WriteTx(db, Store.SyncTx(u, classes)).0;
    var rows := Store.RowsOf(db', u);
    Store.RowsAtHas(rows, [4, 5, 6, 8]);
    forall c ensures c in classes <==> c in Store.ListDjClasses(db', u) {
      if c in classes {
        assert c.button in [4, 5, 6, 8] && c.button in rows && rows[c.button] == c;
      }
    }
  }

  /** What a sync reports: the best of the fetched classes. */
  function Highest(classes: seq<Store.ClassRow>): Option<DjClass.Row> {
    DjClass.Choice(Store.ToRows(classes), None, DjClass.Auto)
  }

  lemma ToRowsHas(cs: seq<Store.ClassRow>, r: DjClass.Row)
    ensures r in Store.ToRows(cs) <==> exists c :: c in cs && Store.ToRow(c) == r
  {
  }

  lemma ButtonsTellApart(cs: seq<Store.ClassRow>, a: DjClass.Row, b: DjClass.Row)
    requires IsFetch(cs) && a in Store.ToRows(cs) && b in Store.ToRows(cs) && a.button == b.button
    ensures a == b && Store.RealButton(a.button)
  {
  }

  lemma SameRowsSameBest(cs: seq<Store.ClassRow>, ds: seq<Store.ClassRow>, key: DjClass.Row -> DjClass.Key)
    requires IsFetch(cs) && cs != [] && ds != [] && forall c :: c in cs <==> c in ds
    requires forall a: DjClass.Row, b: DjClass.Row ::
               Store.RealButton(a.button) && Store.RealButton(b.button) && key(a) == key(b) ==> a.button == b.button
    ensures Store.ToRows(cs)[DjClass.BestIndex(Store.ToRows(cs), key)] ==
            Store.ToRows(ds)[DjClass.BestIndex(Store.ToRows(ds), key)]
  {
    var rows, other := Store.ToRows(cs), Store.ToRows(ds);
    forall r ensures r in rows <==> r in other {
      ToRowsHas(cs, r);
      ToRowsHas(ds, r);
    }
    forall a, b | a in rows && b in rows && key(a) == key(b) ensures a == b {
      ButtonsTellApart(cs, a, a);
      ButtonsTellApart(cs, b, b);
      ButtonsTellApart(cs, a, b);
    }
    DjClass.BestDoesNotDependOnOrder(rows, other, key);
  }

  lemma KeysTellButtons(key: DjClass.Row -> DjClass.Key)
    requires forall r :: key(r) == DjClass.SortKey(r)
    ensures forall a: DjClass.Row, b: DjClass.Row ::
              Store.RealButton(a.button) && Store.RealButton(b.button) && key(a) == key(b) ==> a.button == b.button
  {
    forall a: DjClass.Row, b: DjClass.Row |
      Store.RealButton(a.button) && Store.RealButton(b.button) && key(a) == key(b)
      ensures a.button == b.button
    {
      DjClass.KeyTellsButton(a, b);
    }
  }

  lemma SameRowsSameHighest(cs: seq<Store.ClassRow>, ds: seq<Store.ClassRow>)
    requires IsFetch(cs) && cs != [] && ds != [] && forall c :: c in cs <==> c in ds
    ensures Highest(cs) == Highest(ds)
  {
    KeysTellButtons(DjClass.SortKey);
    SameRowsSameBest(cs, ds, DjClass.SortKey);
  }

  /**
   * After a sync of a linked user that nothing interleaves with, the row it reports as highest is
   * the row behind the automatic badge that the resolver then gives.
   */
  lemma HighestIsTheAutoBadge(db: Store.Db, u: nat, classes: seq<Store.ClassRow>)
    requires db.Ok() && u < |db.users| && Store.HasActiveLink(db, u) && IsFetch(classes) && classes != []
    ensures u < |Store.WriteTx(db, Store.SyncTx(u, classes)).0.users|
    ensures var res := Resolver.ResolveUser(Store.WriteTx(db, Store.SyncTx(u, classes)).0, u);
            && Highest(classes).Some?
            && res.status == Linked && res.badge.Some?
            && res.badge.value.auto == DjClass.BuildBadge(Highest(classes).value)
  {
    var db' := Store.WriteTx(db, Store.SyncTx(u, classes)).0;
    Store.SyncStoresTheFetch(db, u, classes);
    SyncReadsBack(db, u, classes);
    assert classes[0] in Store.ListDjClasses(db', u);
    SameRowsSameHighest(classes, Store.ListDjClasses(db', u));
  }
}

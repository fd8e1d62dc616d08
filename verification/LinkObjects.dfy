/**
 * The badge resolver and the link service as objects (internal/resolver/resolver.go,
 * internal/link/link.go): they share the database, and the resolver owns the badge cache.
 */
module LinkObjects {
  import opened Wrappers
  import opened ResolverTypes
  import Coherence
  import CoherenceSeen
  import DjClass
  import Link
  import Resolver
  import Store
  import TtlCache
  import TtlCacheObjects

  class Database {
    var tables: Store.Db

    constructor (tables: Store.Db)
      ensures this.tables == tables
    {
      this.tables := tables;
    }

    /** One write transaction, statement by statement on a copy that only a commit installs. */
    method WriteTx(sts: seq<Store.Statement>) returns (committed: bool)
      modifies this
      ensures (tables, committed) == Store.WriteTx(old(tables), sts)
    {
      var tx := tables;
      for i := 0 to |sts|
        invariant Store.ExecAll(tables, sts) == Store.ExecAll(tx, sts[i..])
        invariant tables == old(tables)
      {
        var next := Store.Exec(tx, sts[i]);
        assert sts[i..][1..] == sts[i + 1..];
        if next.None? {
          return false;
        }
        tx := next.value;
      }
      tables := tx;
      return true;
    }
  }

  class BadgeResolver {
    const store: Database
    const cache: TtlCacheObjects.Cache<Resolution>

    ghost predicate Valid()
      reads this, cache, cache.order, cache.order.ring
    {
      cache.Valid() && cache.max == Resolver.MAX_ENTRIES
    }

    ghost function State(): Coherence.State
      requires Valid()
      reads this, cache, cache.order, cache.order.ring, store
    {
      Coherence.State(store.tables, cache.Contents())
    }

    constructor (store: Database)
      ensures Valid() && this.store == store && State() == Coherence.State(store.tables, [])
      ensures fresh(cache) && fresh(cache.order) && fresh(cache.repr)
    {
      this.store := store;
      cache := new TtlCacheObjects.Cache(Resolver.MAX_ENTRIES);
    }

    /** The rows of the tables, read one table after the other. */
    method Read(sender: string) returns (res: Resolution)
      requires sender != ""
      ensures res == Resolver.Fresh(store.tables, sender)
      ensures store.tables.Ok() ==> Resolver.Displays(store.tables, sender, res)
    {
      res := ReadRows(sender);
      if store.tables.Ok() {
        Resolver.FreshDisplays(store.tables, sender);
      }
    }

    method ReadRows(sender: string) returns (res: Resolution)
      requires sender != ""
      ensures res == Resolver.Fresh(store.tables, sender)
    {
      var db := store.tables;
      var u := Store.FindUser(db.users, sender);
      if u == |db.users| {
        return UNLINKED;
      }
      if !Store.HasActiveLink(db, u) {
        return UNLINKED;
      }
      var rows := Store.ToRows(Store.ListDjClasses(db, u));
      var auto := DjClass.Resolve(rows, None, DjClass.Auto);
      if auto.None? {
        return Resolution(Unsynced, None);
      }
      var viewer := DjClass.Resolve(rows, db.users[u].preferred, DjClass.Viewer);
      return Resolution(Linked, Some(Badges(DjClass.BuildBadge(auto.value), DjClass.BuildBadge(viewer.value))));
    }

    /** What a resolution does to the state, and what is answered. */
    static ghost predicate Resolves(s: Coherence.State, t: Coherence.State, sender: string, now: int, ioError: bool,
                                    r: Result<Resolution, Link.Error>)
    {
      && t.db == s.db
      && (r.Err? <==> ioError && sender != "" && TtlCache.Get(s.cache, sender, now).1.None?)
      && (r.Ok? ==> (t.cache, r.value) == Resolver.Resolve(s.db, s.cache, sender, now))
      && (r.Err? ==> t.cache == TtlCache.Get(s.cache, sender, now).0)
    }

    /** Over tables and a cache that agree, every answer displays what the tables hold. */
    static lemma AnswerDisplays(s: Coherence.State, t: Coherence.State, sender: string, now: int, ioError: bool,
                                r: Result<Resolution, Link.Error>)
      requires Resolves(s, t, sender, now, ioError, r) && Coherence.Coherent(s)
      ensures r.Ok? ==> Resolver.Displays(s.db, sender, r.value)
    {
      CoherenceSeen.AnswerDisplays(s, sender, now);
    }

    /** A read error is returned and nothing is cached for the sender. */
    method Resolve(sender: string, now: int, ioError: bool) returns (r: Result<Resolution, Link.Error>)
      requires Valid()
      modifies cache, cache.order, cache.repr
      ensures Valid() && fresh(cache.repr - old(cache.repr))
      ensures Resolves(old(State()), State(), sender, now, ioError, r)
      ensures Coherence.Coherent(old(State())) && r.Ok? ==> Resolver.Displays(old(State()).db, sender, r.value)
    {
      ghost var was := State();
      r := LookUp(sender, now, ioError);
      if Coherence.Coherent(was) {
        AnswerDisplays(was, State(), sender, now, ioError, r);
      }
    }

    method LookUp(sender: string, now: int, ioError: bool) returns (r: Result<Resolution, Link.Error>)
      requires Valid()
      modifies cache, cache.order, cache.repr
      ensures Valid() && fresh(cache.repr - old(cache.repr))
      ensures Resolves(old(State()), State(), sender, now, ioError, r)
    {
      if sender == "" {
        return Ok(UNLINKED);
      }
      ghost var was := State();
      var hit := Cached(sender, now);
      if hit.Some? {
        AskHit(was, sender, now);
        return Ok(hit.value);
      }
      if ioError {
        return Err(Link.Io);
      }
      AskMiss(was, sender, now);
      var res := Fetch(sender, now);
      return Ok(res);
    }

    /** A fresh resolution, which is kept. */
    method Fetch(sender: string, now: int) returns (res: Resolution)
      requires Valid() && sender != ""
      modifies cache, cache.order, cache.repr
      ensures Valid() && fresh(cache.repr - old(cache.repr))
      ensures res == Resolver.Fresh(old(State()).db, sender)
      ensures State() ==
              Coherence.State(old(State()).db,
                  TtlCache.Set(Resolver.MAX_ENTRIES, old(State()).cache, sender, res, now, Resolver.Ttl(res.status)))
    {
      res := ReadRows(sender);
      Keep(sender, res, now);
    }

    method Cached(sender: string, now: int) returns (hit: Option<Resolution>)
      requires Valid()
      modifies cache, cache.order, cache.repr
      ensures Valid() && cache.repr == old(cache.repr)
      ensures State() == Coherence.State(old(State()).db, TtlCache.Get(old(State()).cache, sender, now).0)
      ensures hit == TtlCache.Get(old(State()).cache, sender, now).1
    {
      hit := cache.Get(sender, now);
    }

    method Keep(sender: string, res: Resolution, now: int)
      requires Valid()
      modifies cache, cache.order, cache.repr
      ensures Valid() && fresh(cache.repr - old(cache.repr))
      ensures State() ==
              Coherence.State(old(State()).db,
                  TtlCache.Set(Resolver.MAX_ENTRIES, old(State()).cache, sender, res, now, Resolver.Ttl(res.status)))
    {
      cache.Set(sender, res, now, Resolver.Ttl(res.status));
    }

    static lemma AskHit(s: Coherence.State, sender: string, now: int)
      requires sender != "" && TtlCache.Get(s.cache, sender, now).1.Some?
      ensures var (kept, hit) := TtlCache.Get(s.cache, sender, now);
              Resolver.Resolve(s.db, s.cache, sender, now) == (kept, hit.value)
    {
    }

    static lemma AskMiss(s: Coherence.State, sender: string, now: int)
      requires sender != "" && TtlCache.Get(s.cache, sender, now).1.None?
      ensures var res := Resolver.Fresh(s.db, sender);
              var kept := TtlCache.Get(s.cache, sender, now).0;
              Resolver.Resolve(s.db, s.cache, sender, now) ==
              (TtlCache.Set(Resolver.MAX_ENTRIES, kept, sender, res, now, Resolver.Ttl(res.status)), res)
    {
    }

    method InvalidateUser(chzzkId: string)
      requires Valid()
      modifies cache, cache.order, cache.repr
      ensures Valid() && cache.repr == old(cache.repr)
      ensures State() == Coherence.State(old(State()).db, TtlCache.Delete(old(State()).cache, chzzkId))
    {
      cache.Delete(chzzkId);
    }
  }

  class LinkService {
    const resolver: BadgeResolver

    constructor (resolver: BadgeResolver)
      ensures this.resolver == resolver
    {
      this.resolver := resolver;
    }

    /** Commits a change of u, and only then drops the cached badge. */
    method Change(u: Link.User, change: Coherence.Change) returns (committed: bool)
      requires resolver.Valid() && Link.Exists(resolver.store.tables, u)
      modifies resolver.store, resolver.cache, resolver.cache.order, resolver.cache.repr
      ensures resolver.Valid() && resolver.cache.repr == old(resolver.cache.repr)
      ensures (resolver.State(), committed) == Coherence.Written(old(resolver.State()), u.id, change)
    {
      var sts := Coherence.Transaction(u.id, change);
      committed := resolver.store.WriteTx(sts);
      if committed {
        resolver.InvalidateUser(u.chzzkId);
      }
    }

    method SyncUser(u: Link.User, classes: seq<Store.ClassRow>, faults: Link.Faults)
      returns (r: Result<Link.SyncResult, Link.Error>)
      requires resolver.Valid() && Link.Exists(resolver.store.tables, u)
      modifies resolver.store, resolver.cache, resolver.cache.order, resolver.cache.repr
      ensures resolver.Valid() && resolver.cache.repr == old(resolver.cache.repr)
      ensures (resolver.State(), r) == Link.SyncUser(old(resolver.State()), u.id, classes, faults)
    {
      if |classes| == 0 {
        if faults.read {
          return Err(Link.Io);
        }
        var had := Store.ListDjClasses(resolver.store.tables, u.id);
        return Ok(Link.SyncResult(false, |had| > 0, None));
      }
      if faults.write {
        return Err(Link.Io);
      }
      var highest := Best(classes);
      var committed := Change(u, Coherence.Sync(classes));
      if !committed {
        return Err(Link.Constraint);
      }
      return Ok(Link.SyncResult(true, false, highest));
    }

    static method Best(classes: seq<Store.ClassRow>) returns (highest: Option<DjClass.Row>)
      ensures highest == Coherence.Highest(classes)
    {
      highest := DjClass.Resolve(Store.ToRows(classes), None, DjClass.Auto);
    }

    /**
     * lookup is V-ARCHIVE's answer about the token, and fetched the classes it then gives for the
     * nickname; linkFault and faults are the database errors of the two halves.
     */
    method Connect(u: Link.User, lookup: Result<(string, int), string>, linkFault: bool,
        fetched: string -> seq<Store.ClassRow>, faults: Link.Faults)
      returns (r: Result<Link.SyncResult, Link.Error>)
      requires resolver.Valid() && Link.Exists(resolver.store.tables, u)
      modifies resolver.store, resolver.cache, resolver.cache.order, resolver.cache.repr
      ensures resolver.Valid() && resolver.cache.repr == old(resolver.cache.repr)
      ensures lookup.Err? || linkFault ==> resolver.State() == old(resolver.State()) && r.Err?
      ensures lookup.Ok? && !linkFault ==>
                && u.id < |Linked(old(resolver.State()), u, lookup.value).db.users|
                && (resolver.State(), r) ==
                      Link.SyncUser(Linked(old(resolver.State()), u, lookup.value), u.id, fetched(lookup.value.0),
                          faults)
    {
      if lookup.Err? {
        return Err(Link.Lookup(lookup.error));
      }
      if linkFault {
        return Err(Link.Io);
      }
      LinkCommits(resolver.State().db, u, lookup.value);
      var _ := Change(u, Coherence.Connect(lookup.value.0, lookup.value.1));
      r := SyncUser(u, fetched(lookup.value.0), faults);
    }

    /** The state after the first half of Connect. */
    static ghost function Linked(s: Coherence.State, u: Link.User, va: (string, int)): Coherence.State
      requires Link.Exists(s.db, u)
    {
      Coherence.Apply(s, Coherence.Write(u.id, Coherence.Connect(va.0, va.1)))
    }

    static lemma LinkCommits(db: Store.Db, u: Link.User, va: (string, int))
      requires Link.Exists(db, u)
      ensures Store.WriteTx(db, Store.LinkTx(u.id, va.0, va.1)) ==
              (db.(links := db.links[u.id := Store.Link(va.0, va.1, true)]), true)
    {
      var sts := Store.LinkTx(u.id, va.0, va.1);
      assert Store.ExecAll(Store.Exec(db, sts[0]).value, sts[1..]).Some?;
    }

    method Sync(u: Link.User, linkFault: bool, fetched: string -> seq<Store.ClassRow>, faults: Link.Faults)
      returns (r: Result<Link.SyncResult, Link.Error>)
      requires resolver.Valid() && Link.Exists(resolver.store.tables, u)
      modifies resolver.store, resolver.cache, resolver.cache.order, resolver.cache.repr
      ensures resolver.Valid() && resolver.cache.repr == old(resolver.cache.repr)
      ensures var links := old(resolver.State()).db.links;
              r == Err(Link.NotLinked) <==> !linkFault && (u.id !in links || !links[u.id].active)
      ensures linkFault || r == Err(Link.NotLinked) ==> resolver.State() == old(resolver.State()) && r.Err?
      ensures !linkFault && r != Err(Link.NotLinked) ==>
                (resolver.State(), r) ==
                Link.SyncUser(old(resolver.State()), u.id, fetched(old(resolver.State()).db.links[u.id].nickname),
                    faults)
    {
      if linkFault {
        return Err(Link.Io);
      }
      var link := Store.GetActiveLink(resolver.store.tables, u.id);
      if link.None? {
        return Err(Link.NotLinked);
      }
      r := SyncUser(u, fetched(link.value.nickname), faults);
    }

    /** Nothing happens for a user without an active link. */
    method Unlink(u: Link.User, faults: Link.Faults) returns (r: Result<(), Link.Error>)
      requires resolver.Valid() && Link.Exists(resolver.store.tables, u)
      modifies resolver.store, resolver.cache, resolver.cache.order, resolver.cache.repr
      ensures resolver.Valid() && resolver.cache.repr == old(resolver.cache.repr)
      ensures var was := old(resolver.State());
              if faults.read then r.Err? && resolver.State() == was
              else if u.id !in was.db.links || !was.db.links[u.id].active then r.Ok? && resolver.State() == was
              else if faults.write then r.Err? && resolver.State() == was
              else
                && r.Ok?
                && resolver.State() == Coherence.State(Unlinked(was.db, u.id), TtlCache.Delete(was.cache, u.chzzkId))
    {
      if faults.read {
        return Err(Link.Io);
      }
      var link := Store.GetActiveLink(resolver.store.tables, u.id);
      if link.None? {
        return Ok(());
      }
      if faults.write {
        return Err(Link.Io);
      }
      UnlinkCommits(resolver.State().db, u.id);
      var _ := Change(u, Coherence.Unlink);
      return Ok(());
    }

    /** Inactive, without classes, and on the automatic badge. */
    static ghost function Unlinked(db: Store.Db, u: nat): Store.Db
      requires u < |db.users| && u in db.links
    {
      Store.Db(db.users[u := db.users[u].(preferred := None)], db.links[u := db.links[u].(active := false)],
          db.classes - {u})
    }

    static lemma UnlinkCommits(db: Store.Db, u: nat)
      requires u < |db.users| && u in db.links
      ensures Store.WriteTx(db, Store.UnlinkTx(u)) == (Unlinked(db, u), true)
    {
      var sts := Store.UnlinkTx(u);
      var db1 := Store.Exec(db, sts[0]).value;
      var db2 := Store.Exec(db1, sts[1]).value;
      var db3 := Store.Exec(db2, sts[2]).value;
      assert sts[1..] == [sts[1], sts[2]] && sts[1..][1..] == [sts[2]];
      assert Store.ExecAll(db3, []) == Some(db3);
      assert Store.ExecAll(db2, [sts[2]]) == Some(db3);
      assert Store.ExecAll(db1, sts[1..]) == Some(db3);
      assert db3 == Unlinked(db, u);
    }

    /** What a preference does to the state, and what is answered. */
    static ghost predicate Preferred(s: Coherence.State, t: Coherence.State, u: Link.User, raw: string,
        faults: Link.Faults,
                                     r: Result<(), Link.Error>)
      requires Link.Exists(s.db, u)
    {
      var pref := Link.Preference(s.db, u.id, raw);
      && (!faults.read && !faults.write ==> r == if pref.Some? then Ok(()) else Err(Link.InvalidButton))
      && (faults.write ==> r.Err?)
      && (r.Err? ==> t == s)
      && (r.Ok? ==>
            pref.Some? && t == Coherence.State(Preferring(s.db, u.id, pref.value), TtlCache.Delete(s.cache, u.chzzkId)))
    }

    /** Stores a button that the user has a class for, or none; refuses the rest without a write. */
    method SetPreferredButton(u: Link.User, raw: string, faults: Link.Faults) returns (r: Result<(), Link.Error>)
      requires resolver.Valid() && Link.Exists(resolver.store.tables, u) && resolver.store.tables.Ok()
      modifies resolver.store, resolver.cache, resolver.cache.order, resolver.cache.repr
      ensures resolver.Valid() && resolver.cache.repr == old(resolver.cache.repr)
      ensures Preferred(old(resolver.State()), resolver.State(), u, raw, faults, r)
    {
      var db := resolver.store.tables;
      var pref := Choose(db, u.id, raw, faults.read);
      if pref.Err? {
        return Err(pref.error);
      }
      if faults.write {
        return Err(Link.Io);
      }
      Link.PreferenceCommits(db, u.id, raw);
      PreferenceWritten(resolver.State(), u, pref.value);
      var _ := Change(u, Coherence.Prefer(pref.value));
      return Ok(());
    }

    static lemma PreferenceWritten(s: Coherence.State, u: Link.User, pref: Option<int>)
      requires Link.Exists(s.db, u) && Store.WriteTx(s.db, Store.PreferTx(u.id, pref)).1
      ensures Coherence.Written(s, u.id, Coherence.Prefer(pref)) ==
              (Coherence.State(Preferring(s.db, u.id, pref), TtlCache.Delete(s.cache, u.chzzkId)), true)
    {
      PreferStores(s.db, u.id, pref);
    }

    /** The preference that raw asks for, if the user may have it. */
    static method Choose(db: Store.Db, u: nat, raw: string, readFault: bool)
      returns (pref: Result<Option<int>, Link.Error>)
      ensures pref.Ok? ==> Link.Preference(db, u, raw) == Some(pref.value)
      ensures pref.Err? ==> pref.error == Link.InvalidButton || (pref.error == Link.Io && readFault)
      ensures !readFault && Link.Preference(db, u, raw).Some? ==> pref.Ok?
    {
      if raw == "" || raw == "auto" {
        return Ok(None);
      }
      var n := Link.ParseInt(raw);
      if n.None? {
        return Err(Link.InvalidButton);
      }
      if readFault {
        return Err(Link.Io);
      }
      var found := HasButton(Store.ListDjClasses(db, u), n.value);
      if !found {
        return Err(Link.InvalidButton);
      }
      return Ok(n);
    }

    static ghost function Preferring(db: Store.Db, u: nat, pref: Option<int>): Store.Db
      requires u < |db.users|
    {
      db.(users := db.users[u := db.users[u].(preferred := pref)])
    }

    static lemma PreferStores(db: Store.Db, u: nat, pref: Option<int>)
      requires u < |db.users| && Store.WriteTx(db, Store.PreferTx(u, pref)).1
      ensures Store.WriteTx(db, Store.PreferTx(u, pref)).0 == Preferring(db, u, pref)
    {
      var sts := Store.PreferTx(u, pref);
      assert Store.ExecAll(db, sts) == Store.Exec(db, sts[0]) by {
        assert Store.ExecAll(Store.Exec(db, sts[0]).value, []) == Store.Exec(db, sts[0]);
      }
    }

    static method HasButton(rows: seq<Store.ClassRow>, button: int) returns (found: bool)
      ensures found <==> exists c :: c in rows && c.button == button
    {
      for i := 0 to |rows|
        invariant forall j :: 0 <= j < i ==> rows[j].button != button
      {
        if rows[i].button == button {
          assert rows[i] in rows;
          return true;
        }
      }
      return false;
    }

    method SyncNext(l: Link.ActiveLink, classes: seq<Store.ClassRow>, faults: Link.Faults, success: nat, failed: nat)
      returns (success': nat, failed': nat)
      requires resolver.Valid() && Link.Exists(resolver.store.tables, Link.User(l.user, l.chzzkId))
      modifies resolver.store, resolver.cache, resolver.cache.order, resolver.cache.repr
      ensures resolver.Valid() && resolver.cache.repr == old(resolver.cache.repr)
      ensures Link.Tally(resolver.State(), success', failed') ==
              Link.SyncOne(Link.Tally(old(resolver.State()), success, failed), l, classes, faults)
    {
      success', failed' := success, failed;
      var r := SyncUser(Link.User(l.user, l.chzzkId), classes, faults);
      if r.Ok? && r.value.ok {
        success' := success + 1;
      } else {
        failed' := failed + 1;
      }
    }

    /** Every active link in turn, until the context ends; stopAfter says how many are begun before that. */
    method SyncAll(listFault: bool, stopAfter: nat, fetched: (nat, string) -> seq<Store.ClassRow>,
        faults: nat -> Link.Faults)
      returns (success: nat, failed: nat)
      requires resolver.Valid()
      modifies resolver.store, resolver.cache, resolver.cache.order, resolver.cache.repr
      ensures resolver.Valid() && resolver.cache.repr == old(resolver.cache.repr)
      ensures listFault ==> (success, failed) == (0, 0) && resolver.State() == old(resolver.State())
      ensures !listFault ==>
                var was := old(resolver.State());
                var all := Link.ActiveLinks(was.db, |was.db.users|);
                var begun := all[..if stopAfter < |all| then stopAfter else |all|];
                && Link.AllExist(was.db, begun)
                && Link.Tally(resolver.State(), success, failed) ==
                   Link.SyncEach(Link.Tally(was, 0, 0), begun, Fetches(all, fetched), faults)
                && (|all| <= stopAfter ==>
                      Link.AllExist(was.db, all)
                      && Link.Tally(resolver.State(), success, failed) ==
                           Link.SyncAll(was, Fetches(all, fetched), faults))
    {
      if listFault {
        return 0, 0;
      }
      var links := Link.ActiveLinks(resolver.store.tables, |resolver.store.tables.users|);
      Link.ListedLinksExist(resolver.store.tables);
      success, failed := SyncLinks(links, stopAfter, fetched, faults);
      assert |links| <= stopAfter ==> links[..|links|] == links;
    }

    method SyncLinks(links: seq<Link.ActiveLink>, stopAfter: nat, fetched: (nat, string) -> seq<Store.ClassRow>,
        faults: nat -> Link.Faults)
      returns (success: nat, failed: nat)
      requires resolver.Valid() && Link.AllExist(resolver.store.tables, links)
      modifies resolver.store, resolver.cache, resolver.cache.order, resolver.cache.repr
      ensures resolver.Valid() && resolver.cache.repr == old(resolver.cache.repr)
      ensures Link.Tally(resolver.State(), success, failed) ==
              Link.SyncEach(Link.Tally(old(resolver.State()), 0, 0),
                  links[..if stopAfter < |links| then stopAfter else |links|], Fetches(links, fetched), faults)
    {
      success, failed := 0, 0;
      ghost var was := resolver.State();
      var i := 0;
      while i < |links| && i < stopAfter
        invariant i <= |links| && i <= stopAfter
        invariant resolver.Valid() && resolver.cache.repr == old(resolver.cache.repr)
        invariant Link.Tally(resolver.State(), success, failed) ==
                  Link.SyncEach(Link.Tally(was, 0, 0), links[..i], Fetches(links, fetched), faults)
      {
        var l := links[i];
        assert links[..i + 1][..i] == links[..i];
        success, failed := SyncNext(l, fetched(i, l.nickname), faults(i), success, failed);
        assert Fetches(links, fetched)(i) == fetched(i, l.nickname);
        i := i + 1;
      }
    }

    /** What each link of the batch gets from V-ARCHIVE, by its place. */
    static ghost function Fetches(links: seq<Link.ActiveLink>,
        fetched: (nat, string) -> seq<Store.ClassRow>)
      : nat -> seq<Store.ClassRow>
    {
      (i: nat) => if i < |links| then fetched(i, links[i].nickname) else []
    }
  }
}

/**
 * The link service over values (internal/link/link.go): what each operation answers, and what the
 * daily sync of every active link leaves behind. The outcomes of V-ARCHIVE calls and of database
 * I/O are inputs.
 */
module Link {
  import opened Wrappers
  import opened Text
  import Coherence
  import DjClass
  import Store

  datatype Error = Lookup(reason: string) | NotLinked | InvalidButton | Io | Constraint

  datatype SyncResult = SyncResult(ok: bool, stale: bool, highest: Option<DjClass.Row>)

  /** Which of an operation's database accesses fail. */
  datatype Faults = Faults(read: bool, write: bool)

  /** The user row an operation is called with. */
  datatype User = User(id: nat, chzzkId: string)

  predicate Exists(db: Store.Db, u: User) {
    u.id < |db.users| && db.users[u.id].chzzkId == u.chzzkId
  }

  /** syncUser, given what was fetched: an empty fetch keeps the rows. */
  function SyncUser(s: Coherence.State, u: nat, classes: seq<Store.ClassRow>, faults: Faults)
    : (Coherence.State, Result<SyncResult, Error>)
    requires u < |s.db.users|
  {
    if classes == [] then
      (s, if faults.read then Err(Io) else Ok(SyncResult(false, Store.ListDjClasses(s.db, u) != [], None)))
    else if faults.write then (s, Err(Io))
    else
      (Coherence.Apply(s, Coherence.Write(u, Coherence.Sync(classes))),
       if Store.WriteTx(s.db, Store.SyncTx(u, classes)).1 then Ok(SyncResult(true, false, Coherence.Highest(classes)))
       else Err(Constraint))
  }

  /** row is one of the classes as the badge rules read it, and no other outranks it. */
  ghost predicate IsHighest(classes: seq<Store.ClassRow>, row: DjClass.Row) {
    && (exists c :: c in classes && row == DjClass.Row(c.button, c.class_, c.conversion))
    && (forall c <- classes :: !DjClass.Outranks(DjClass.Row(c.button, c.class_, c.conversion), row))
  }

  lemma HighestIs(classes: seq<Store.ClassRow>)
    requires classes != []
    ensures Coherence.Highest(classes).Some? && IsHighest(classes, Coherence.Highest(classes).value)
  {
    var rows := Store.ToRows(classes);
    DjClass.ChoiceShows(rows, None, DjClass.Auto);
    var i: nat :| DjClass.Tops(rows, i) && DjClass.Choice(rows, None, DjClass.Auto) == Some(rows[i]);
    assert classes[i] in classes;
    forall c <- classes ensures !DjClass.Outranks(DjClass.Row(c.button, c.class_, c.conversion), rows[i]) {
      var j :| 0 <= j < |classes| && classes[j] == c;
      assert rows[j] == DjClass.Row(c.button, c.class_, c.conversion);
    }
  }

  /**
   * What a sync answers, spelled out: an empty fetch is not ok, and stale exactly if there are rows; any other
   * is ok, not stale, and reports the highest of the fetched classes; a failed access is an error.
   */
  lemma SyncUserAnswers(s: Coherence.State, u: nat, classes: seq<Store.ClassRow>, faults: Faults)
    requires u < |s.db.users| && s.db.Ok() && Coherence.IsFetch(classes)
    ensures var (t, r) := SyncUser(s, u, classes, faults);
            && (t == s || (classes != [] && !faults.write))
            && if classes == [] then
                 if faults.read then r == Err(Io)
                 else r.Ok? && !r.value.ok && r.value.highest == None
                      && (r.value.stale <==> u in s.db.classes && s.db.classes[u] != map[])
               else if faults.write then r == Err(Io)
               else r.Ok? && r.value.ok && !r.value.stale
                    && r.value.highest.Some? && IsHighest(classes, r.value.highest.value)
  {
    if classes == [] {
      Store.ListedRows(s.db, u);
    } else {
      Store.SyncStoresTheFetch(s.db, u, classes);
      HighestIs(classes);
    }
  }

  // ----- The daily sync -----

  datatype ActiveLink = ActiveLink(user: nat, nickname: string, chzzkId: string)

  /** The active links by user. */
  function ActiveLinks(db: Store.Db, n: nat): seq<ActiveLink>
    requires n <= |db.users|
  {
    if n == 0 then []
    else
      ActiveLinks(db, n - 1) +
      if !Store.HasActiveLink(db, n - 1) then []
      else [ActiveLink(n - 1, db.links[n - 1].nickname, db.users[n - 1].chzzkId)]
  }

  lemma {:induction false} ActiveLinksAre(db: Store.Db, n: nat)
    requires n <= |db.users|
    ensures forall l <- ActiveLinks(db, n) ::
              && l.user < n && db.users[l.user].chzzkId == l.chzzkId && Store.HasActiveLink(db, l.user)
              && l.user in db.links && db.links[l.user].active && l.nickname == db.links[l.user].nickname
    ensures forall i, j :: 0 <= i < j < |ActiveLinks(db, n)| ==> ActiveLinks(db, n)[i].user < ActiveLinks(db, n)[j].user
  {
    if n > 0 {
      ActiveLinksAre(db, n - 1);
      var before, links := ActiveLinks(db, n - 1), ActiveLinks(db, n);
      forall i | 0 <= i < |before| ensures links[i] == before[i] && before[i].user < n - 1 {
        assert before[i] in before;
      }
    }
  }

  /** The list names every active link: where it names user u, if it does. */
  lemma {:induction false} ActiveLinksAreAll(db: Store.Db, n: nat, u: nat) returns (i: nat)
    requires n <= |db.users| && u < n && Store.HasActiveLink(db, u)
    ensures i < |ActiveLinks(db, n)| && ActiveLinks(db, n)[i].user == u
  {
    var before := ActiveLinks(db, n - 1);
    if u == n - 1 {
      i := |before|;
    } else {
      i := ActiveLinksAreAll(db, n - 1, u);
      assert ActiveLinks(db, n)[i] == before[i];
    }
  }

  datatype Tally = Tally(state: Coherence.State, success: nat, failed: nat)

  /** One link of the batch: counted as a success only if its rows were replaced. */
  function SyncOne(t: Tally, l: ActiveLink, classes: seq<Store.ClassRow>, faults: Faults): Tally
    requires l.user < |t.state.db.users|
  {
    var (state, r) := SyncUser(t.state, l.user, classes, faults);
    if r.Ok? && r.value.ok then Tally(state, t.success + 1, t.failed) else Tally(state, t.success, t.failed + 1)
  }

  ghost predicate AllExist(db: Store.Db, links: seq<ActiveLink>) {
    forall i :: 0 <= i < |links| ==> links[i].user < |db.users| && db.users[links[i].user].chzzkId == links[i].chzzkId
  }

  lemma SyncOneKeepsUsers(t: Tally, l: ActiveLink, classes: seq<Store.ClassRow>, faults: Faults, w: nat)
    requires l.user < |t.state.db.users|
    ensures Coherence.SameIds(t.state.db, SyncOne(t, l, classes, faults).state.db)
    ensures w != l.user && w < |t.state.db.users| ==>
            Coherence.SameView(t.state.db, SyncOne(t, l, classes, faults).state.db, w)
  {
    var sts := Store.SyncTx(l.user, classes);
    Coherence.TransactionIsForOne(l.user, Coherence.Sync(classes));
    if Store.ExecAll(t.state.db, sts).Some? {
      Coherence.StatementsTouchOne(t.state.db, l.user, sts, w);
    }
  }

  /** The batch, one link after the other; fetched and faults say how each went. */
  function SyncEach(t: Tally, links: seq<ActiveLink>, fetched: nat -> seq<Store.ClassRow>,
      faults: nat -> Faults): (r: Tally)
    requires AllExist(t.state.db, links)
    ensures Coherence.SameIds(t.state.db, r.state.db)
    decreases |links|
  {
    if links == [] then t
    else
      var n := |links| - 1;
      var before := SyncEach(t, links[..n], fetched, faults);
      SyncOneKeepsUsers(before, links[n], fetched(n), faults(n), 0);
      SyncOne(before, links[n], fetched(n), faults(n))
  }

  lemma {:induction false} SyncEachCounts(t: Tally, links: seq<ActiveLink>, fetched: nat -> seq<Store.ClassRow>,
      faults: nat -> Faults)
    requires AllExist(t.state.db, links)
    ensures var r := SyncEach(t, links, fetched, faults); r.success + r.failed == t.success + t.failed + |links|
    decreases |links|
  {
    if links != [] {
      SyncEachCounts(t, links[..|links| - 1], fetched, faults);
    }
  }

  /** How many of the first n links got classes that could be written. */
  function Successes(n: nat, fetched: nat -> seq<Store.ClassRow>, faults: nat -> Faults): nat {
    if n == 0 then 0
    else Successes(n - 1, fetched, faults) + if fetched(n - 1) != [] && !faults(n - 1).write then 1 else 0
  }

  /** The first counter counts exactly the links whose classes were replaced, the second the others. */
  lemma {:induction false} SyncEachCountsSuccesses(t: Tally, links: seq<ActiveLink>,
      fetched: nat -> seq<Store.ClassRow>, faults: nat -> Faults)
    requires AllExist(t.state.db, links) && forall i :: 0 <= i < |links| ==> Coherence.IsFetch(fetched(i))
    ensures var r := SyncEach(t, links, fetched, faults);
            && r.success == t.success + Successes(|links|, fetched, faults)
            && r.failed == t.failed + |links| - Successes(|links|, fetched, faults)
    decreases |links|
  {
    if links != [] {
      var n := |links| - 1;
      var before := SyncEach(t, links[..n], fetched, faults);
      SyncEachCountsSuccesses(t, links[..n], fetched, faults);
      if fetched(n) != [] && !faults(n).write {
        Store.SyncStoresTheFetch(before.state.db, links[n].user, fetched(n));
      }
    }
  }

  lemma {:induction false} SyncEachKeepsCoherent(t: Tally, links: seq<ActiveLink>, fetched: nat -> seq<Store.ClassRow>,
      faults: nat -> Faults)
    requires AllExist(t.state.db, links) && Coherence.Coherent(t.state)
    ensures Coherence.Coherent(SyncEach(t, links, fetched, faults).state)
    decreases |links|
  {
    if links != [] {
      var n := |links| - 1;
      var before := SyncEach(t, links[..n], fetched, faults);
      SyncEachKeepsCoherent(t, links[..n], fetched, faults);
      if fetched(n) != [] && !faults(n).write {
        Coherence.WriteKeeps(before.state, links[n].user, Coherence.Sync(fetched(n)));
      }
    }
  }

  lemma {:induction false} SyncEachSparesOthers(t: Tally, links: seq<ActiveLink>, fetched: nat -> seq<Store.ClassRow>,
      faults: nat -> Faults, w: nat)
    requires AllExist(t.state.db, links) && w < |t.state.db.users|
    requires forall i :: 0 <= i < |links| ==> links[i].user != w
    ensures Coherence.SameView(t.state.db, SyncEach(t, links, fetched, faults).state.db, w)
    decreases |links|
  {
    if links != [] {
      var n := |links| - 1;
      SyncEachSparesOthers(t, links[..n], fetched, faults, w);
      SyncOneKeepsUsers(SyncEach(t, links[..n], fetched, faults), links[n], fetched(n), faults(n), w);
    }
  }

  /** User u has exactly the fetched classes, or the old rows if nothing was fetched or the write failed. */
  ghost predicate Served(old_: Store.Db, db: Store.Db, u: nat, classes: seq<Store.ClassRow>, faults: Faults) {
    if classes != [] && !faults.write then forall c :: c in classes <==> c in Store.ListDjClasses(db, u)
    else Store.ListDjClasses(db, u) == Store.ListDjClasses(old_, u)
  }

  lemma SyncOneServes(t: Tally, l: ActiveLink, classes: seq<Store.ClassRow>, faults: Faults)
    requires l.user < |t.state.db.users| && Coherence.IsFetch(classes)
    ensures Served(t.state.db, SyncOne(t, l, classes, faults).state.db, l.user, classes, faults)
  {
    if classes != [] && !faults.write {
      Coherence.SyncReadsBack(t.state.db, l.user, classes);
    }
  }

  lemma ServedFrame(old_: Store.Db, db1: Store.Db, db2: Store.Db, db: Store.Db, u: nat, classes: seq<Store.ClassRow>,
      faults: Faults)
    requires Coherence.SameView(old_, db1, u) && Served(db1, db2, u, classes, faults) && Coherence.SameView(db2, db, u)
    ensures Served(old_, db, u, classes, faults)
  {
  }

  /** The last turn of a batch comes after the turns of the others. */
  lemma LastTurn(t: Tally, links: seq<ActiveLink>, fetched: nat -> seq<Store.ClassRow>, faults: nat -> Faults)
    returns (before: Tally)
    requires AllExist(t.state.db, links) && links != []
    ensures var n := |links| - 1;
            && AllExist(t.state.db, links[..n]) && before == SyncEach(t, links[..n], fetched, faults)
            && |before.state.db.users| == |t.state.db.users| && links[n].user < |before.state.db.users|
            && SyncEach(t, links, fetched, faults) == SyncOne(before, links[n], fetched(n), faults(n))
  {
    before := SyncEach(t, links[..|links| - 1], fetched, faults);
  }

  /** A link already served stays so when another user's turn comes. */
  lemma StaysServed(old_: Store.Db, t: Tally, u: nat, classes: seq<Store.ClassRow>, faults: Faults,
      l: ActiveLink, next: seq<Store.ClassRow>, nextFaults: Faults)
    requires u < |old_.users| && l.user < |t.state.db.users| && u < |t.state.db.users| && l.user != u
    requires Served(old_, t.state.db, u, classes, faults)
    ensures Served(old_, SyncOne(t, l, next, nextFaults).state.db, u, classes, faults)
  {
    SyncOneKeepsUsers(t, l, next, nextFaults, u);
    ServedFrame(old_, old_, t.state.db, SyncOne(t, l, next, nextFaults).state.db, u, classes, faults);
  }

  /** A link that the others have left alone is served at its turn. */
  lemma TurnServes(old_: Store.Db, t: Tally, l: ActiveLink, classes: seq<Store.ClassRow>, faults: Faults)
    requires l.user < |t.state.db.users| && Coherence.SameView(old_, t.state.db, l.user) && Coherence.IsFetch(classes)
    ensures Served(old_, SyncOne(t, l, classes, faults).state.db, l.user, classes, faults)
  {
    var after := SyncOne(t, l, classes, faults).state.db;
    SyncOneKeepsUsers(t, l, classes, faults, l.user);
    SyncOneServes(t, l, classes, faults);
    ServedFrame(old_, t.state.db, after, after, l.user, classes, faults);
  }

  /**
   * One bad link never stops the batch: link i ends up with exactly what was fetched for it, or with
   * the rows it had if its fetch was empty or its write failed, whatever happens to the others.
   */
  lemma {:induction false} EveryLinkIsTried(t: Tally, links: seq<ActiveLink>, fetched: nat -> seq<Store.ClassRow>,
      faults: nat -> Faults, i: nat)
    requires AllExist(t.state.db, links) && i < |links|
    requires forall j, k :: 0 <= j < k < |links| ==> links[j].user < links[k].user
    requires Coherence.IsFetch(fetched(i))
    ensures Served(t.state.db, SyncEach(t, links, fetched, faults).state.db, links[i].user, fetched(i), faults(i))
    decreases |links|
  {
    var n := |links| - 1;
    var before := LastTurn(t, links, fetched, faults);
    if i < n {
      assert links[..n][i] == links[i];
      EveryLinkIsTried(t, links[..n], fetched, faults, i);
      StaysServed(t.state.db, before, links[i].user, fetched(i), faults(i), links[n], fetched(n), faults(n));
    } else {
      SyncEachSparesOthers(t, links[..n], fetched, faults, links[i].user);
      TurnServes(t.state.db, before, links[n], fetched(n), faults(n));
    }
  }

  /** The daily sync without interruption, from what was listed at its start. */
  function SyncAll(s: Coherence.State, fetched: nat -> seq<Store.ClassRow>, faults: nat -> Faults): Tally
    requires AllExist(s.db, ActiveLinks(s.db, |s.db.users|))
  {
    SyncEach(Tally(s, 0, 0), ActiveLinks(s.db, |s.db.users|), fetched, faults)
  }

  lemma ListedLinksExist(db: Store.Db)
    ensures AllExist(db, ActiveLinks(db, |db.users|))
  {
    var links := ActiveLinks(db, |db.users|);
    ActiveLinksAre(db, |db.users|);
    forall i | 0 <= i < |links|
      ensures links[i].user < |db.users| && db.users[links[i].user].chzzkId == links[i].chzzkId
    {
      assert links[i] in links;
    }
  }

  /**
   * Every user with an active link at the start has its turn in the daily sync, and ends with exactly its
   * own fetch, or its old rows if that was empty or its write failed; nobody else's rows change.
   */
  lemma SyncAllServesEveryLink(s: Coherence.State, fetched: nat -> seq<Store.ClassRow>, faults: nat -> Faults, u: nat)
    returns (i: nat)
    requires u < |s.db.users| && forall j :: Coherence.IsFetch(fetched(j))
    ensures AllExist(s.db, ActiveLinks(s.db, |s.db.users|))
    ensures var links, db := ActiveLinks(s.db, |s.db.users|), SyncAll(s, fetched, faults).state.db;
            if Store.HasActiveLink(s.db, u) then
              i < |links| && links[i].user == u && Served(s.db, db, u, fetched(i), faults(i))
            else Store.ListDjClasses(db, u) == Store.ListDjClasses(s.db, u)
  {
    var links := ActiveLinks(s.db, |s.db.users|);
    ListedLinksExist(s.db);
    ActiveLinksAre(s.db, |s.db.users|);
    i := 0;
    if Store.HasActiveLink(s.db, u) {
      i := ActiveLinksAreAll(s.db, |s.db.users|, u);
      EveryLinkIsTried(Tally(s, 0, 0), links, fetched, faults, i);
    } else {
      forall j | 0 <= j < |links| ensures links[j].user != u {
        assert links[j] in links;
      }
      SyncEachSparesOthers(Tally(s, 0, 0), links, fetched, faults, u);
    }
  }

  // ----- Parsing a button -----

  const MAX_INT64 := 0x7fff_ffff_ffff_ffff

  function DigitsValue(s: string): (n: nat)
    requires AllDigits(s)
  {
    if s == "" then 0 else 10 * DigitsValue(s[..|s| - 1]) + (s[|s| - 1] as int - '0' as int)
  }

  /** strconv.ParseInt(s, 10, 64). */
  function ParseInt(s: string): Option<int> {
    var signed := s != "" && (s[0] == '-' || s[0] == '+');
    var digits := if signed then s[1..] else s;
    if digits == "" || !AllDigits(digits) then None
    else
      var n: int := if signed && s[0] == '-' then 0 - DigitsValue(digits) else DigitsValue(digits);
      if -MAX_INT64 - 1 <= n <= MAX_INT64 then Some(n) else None
  }

  /** n in decimal. */
  function Decimal(n: nat): (s: string)
    ensures s != ""
  {
    if n < 10 then [('0' as int + n) as char] else Decimal(n / 10) + [('0' as int + n % 10) as char]
  }

  lemma {:induction false} DecimalReadsBack(n: nat)
    ensures AllDigits(Decimal(n)) && DigitsValue(Decimal(n)) == n
  {
    var s := Decimal(n);
    if n >= 10 {
      DecimalReadsBack(n / 10);
      assert s[..|s| - 1] == Decimal(n / 10);
    } else {
      assert s[..|s| - 1] == "" && DigitsValue("") == 0;
    }
  }

  /** Parsing undoes writing, with or without a sign, for what fits 64 bits. */
  lemma ParseIntReadsBack(n: nat)
    requires n <= MAX_INT64
    ensures ParseInt(Decimal(n)) == ParseInt("+" + Decimal(n)) == Some(n)
    ensures ParseInt("-" + Decimal(n)) == Some(0 - n)
  {
    DecimalReadsBack(n);
    assert ("+" + Decimal(n))[1..] == Decimal(n) && ("-" + Decimal(n))[1..] == Decimal(n);
    assert IsDigit(Decimal(n)[0]);
  }

  /** Nothing is accepted but digits after an optional sign. */
  lemma ParseIntRefuses(s: string)
    requires s == "" || s == "+" || s == "-" || exists i :: 0 <= i < |s| && !IsDigit(s[i]) && (i > 0 || s[i] !in "+-")
    ensures ParseInt(s) == None
  {
    if i :| 0 <= i < |s| && !IsDigit(s[i]) && (i > 0 || s[i] !in "+-") {
      assert i > 0 ==> s[1..][i - 1] == s[i];
    }
  }

  /** What a submitted preference means: None if it is not one the user may choose. */
  function Preference(db: Store.Db, u: nat, raw: string): Option<Option<int>> {
    if raw == "" || raw == "auto" then Some(None)
    else
      match ParseInt(raw)
      case None => None
      case Some(n) => if exists c :: c in Store.ListDjClasses(db, u) && c.button == n then Some(Some(n)) else None
  }

  /**
   * What is accepted, spelled out: automatic, and the number of a button that the user has a class for; and for
   * such a button its number is accepted.
   */
  lemma PreferenceIs(db: Store.Db, u: nat, raw: string)
    requires db.Ok()
    ensures raw == "" || raw == "auto" <==> Preference(db, u, raw) == Some(None)
    ensures forall n :: Preference(db, u, raw) == Some(Some(n)) ==>
              ParseInt(raw) == Some(n) && u in db.classes && n in db.classes[u]
    ensures forall n: nat :: raw == Decimal(n) && u in db.classes && n in db.classes[u] ==>
              Preference(db, u, raw) == Some(Some(n))
  {
    Store.ListedRows(db, u);
    forall n: nat | raw == Decimal(n) && u in db.classes && n in db.classes[u]
      ensures Preference(db, u, raw) == Some(Some(n))
    {
      ParseIntReadsBack(n);
      DecimalReadsBack(n);
      assert raw != "auto" by {
        assert !IsDigit("auto"[0]);
      }
      assert db.classes[u][n] in Store.ListDjClasses(db, u);
    }
  }

  /** A preference is only ever refused by the service itself, never by the table's constraint. */
  lemma PreferenceCommits(db: Store.Db, u: nat, raw: string)
    requires db.Ok() && u < |db.users| && Preference(db, u, raw).Some?
    ensures Store.WriteTx(db, Store.PreferTx(u, Preference(db, u, raw).value)).1
  {
    var pref := Preference(db, u, raw).value;
    var sts := Store.PreferTx(u, pref);
    if pref.Some? {
      Store.RowsAtHas(Store.RowsOf(db, u), [4, 5, 6, 8]);
      var c :| c in Store.ListDjClasses(db, u) && c.button == pref.value;
      assert Store.RealButton(c.button);
    }
    assert sts[1..] == [];
    assert Store.ExecAll(db, sts) == Store.Exec(db, sts[0]) by {
      assert Store.ExecAll(Store.Exec(db, sts[0]).value, []).Some?;
    }
  }
}

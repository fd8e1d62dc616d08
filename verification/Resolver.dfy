/**
 * What a sender's badge is (resolve in internal/resolver/resolver.go), read straight from the
 * tables, and how the cached Resolve works on a cache value.
 */
module Resolver {
  import opened Wrappers
  import opened ResolverTypes
  import DjClass
  import Store
  import TtlCache

  const MAX_ENTRIES: nat := 10000

  /** Seconds that an answer may be reused. */
  function Ttl(status: Status): int {
    match status
    case Linked => 5 * 60
    case Unsynced => 15
    case Unlinked => 10
  }

  function FromRows(rows: seq<DjClass.Row>, preferred: Option<int>): Resolution {
    match DjClass.Choice(rows, None, DjClass.Auto)
    case None => Resolution(Unsynced, None)
    case Some(auto) =>
      match DjClass.Choice(rows, preferred, DjClass.Viewer)
      case None => Resolution(Unsynced, None)
      case Some(viewer) => Resolution(Linked, Some(Badges(DjClass.BuildBadge(auto), DjClass.BuildBadge(viewer))))
  }

  function ResolveUser(db: Store.Db, u: nat): Resolution
    requires u < |db.users|
  {
    if !Store.HasActiveLink(db, u) then UNLINKED
    else FromRows(Store.ToRows(Store.ListDjClasses(db, u)), db.users[u].preferred)
  }

  /** A fresh resolution; a sender without an id, and one nobody knows, is unlinked. */
  function Fresh(db: Store.Db, sender: string): Resolution {
    var u := Store.FindUser(db.users, sender);
    if sender == "" || u == |db.users| then UNLINKED else ResolveUser(db, u)
  }

  /** rows[b] as the badge rules read it. */
  function RowAt(rows: map<int, Store.ClassRow>, b: int): DjClass.Row
    requires b in rows
  {
    DjClass.Row(b, rows[b].class_, rows[b].conversion)
  }

  /** The row of button b outranks the others. */
  ghost predicate IsHighest(rows: map<int, Store.ClassRow>, b: int) {
    b in rows && forall c <- rows :: c != b ==> DjClass.Outranks(RowAt(rows, b), RowAt(rows, c))
  }

  /**
   * badges are built from these rows: the automatic one from the highest, the viewer's from the preferred one
   * if any.
   */
  ghost predicate BadgesOf(rows: map<int, Store.ClassRow>, preferred: Option<int>, badges: Badges) {
    && (exists b :: IsHighest(rows, b) && badges.auto == DjClass.BuildBadge(RowAt(rows, b)))
    && badges.viewer ==
       if preferred.Some? && preferred.value in rows then DjClass.BuildBadge(RowAt(rows, preferred.value))
       else badges.auto
  }

  /** What is known of a sender, spelled out. */
  ghost predicate Displays(db: Store.Db, sender: string, res: Resolution) {
    var u := Store.FindUser(db.users, sender);
    if sender == "" || u == |db.users| || u !in db.links || !db.links[u].active then
      res.status == Unlinked && res.badge == None
    else if u !in db.classes || db.classes[u] == map[] then
      res.status == Unsynced && res.badge == None
    else
      res.status == Linked && res.badge.Some? && BadgesOf(db.classes[u], db.users[u].preferred, res.badge.value)
  }

  type Cache = seq<TtlCache.Entry<Resolution>>

  /** Resolve as one step: the cached answer, or a fresh one that is then cached. */
  function Resolve(db: Store.Db, cache: Cache, sender: string, now: int): (Cache, Resolution) {
    if sender == "" then (cache, UNLINKED)
    else
      var (kept, hit) := TtlCache.Get(cache, sender, now);
      match hit
      case Some(res) => (kept, res)
      case None =>
        var res := Fresh(db, sender);
        (TtlCache.Set(MAX_ENTRIES, kept, sender, res, now, Ttl(res.status)), res)
  }

  // ----- A fresh resolution displays what is stored -----

  /** Row i of the listed classes is the row of its button. */
  lemma ListedAt(db: Store.Db, u: nat, i: nat)
    requires db.Ok() && u in db.classes && i < |Store.ListDjClasses(db, u)|
    ensures var rows, r := db.classes[u], Store.ToRows(Store.ListDjClasses(db, u))[i];
            r.button in rows && r == RowAt(rows, r.button) && Store.RealButton(r.button)
  {
    Store.ListedRows(db, u);
    assert Store.ListDjClasses(db, u)[i] in Store.ListDjClasses(db, u);
  }

  /** And every button with a row is listed once. */
  lemma ListedWhere(db: Store.Db, u: nat, b: int) returns (i: nat)
    requires db.Ok() && u in db.classes && b in db.classes[u]
    ensures i < |Store.ListDjClasses(db, u)|
    ensures Store.ToRows(Store.ListDjClasses(db, u))[i] == RowAt(db.classes[u], b)
    ensures DjClass.FirstWith(Store.ToRows(Store.ListDjClasses(db, u)), b, i)
  {
    Store.ListedRows(db, u);
    var c := db.classes[u][b];
    assert c in Store.ListDjClasses(db, u);
    i :| 0 <= i < |Store.ListDjClasses(db, u)| && Store.ListDjClasses(db, u)[i] == c;
  }

  lemma DifferentButtonsCompare(a: DjClass.Row, b: DjClass.Row)
    requires Store.RealButton(a.button) && Store.RealButton(b.button) && a.button != b.button
    ensures DjClass.Outranks(a, b) || DjClass.Outranks(b, a)
  {
  }

  /** The row on top is the highest. */
  lemma TopIsHighest(db: Store.Db, u: nat, i: nat)
    requires db.Ok() && u in db.classes && DjClass.Tops(Store.ToRows(Store.ListDjClasses(db, u)), i)
    ensures var r := Store.ToRows(Store.ListDjClasses(db, u))[i];
            IsHighest(db.classes[u], r.button) && r == RowAt(db.classes[u], r.button)
  {
    var rows, list := db.classes[u], Store.ToRows(Store.ListDjClasses(db, u));
    ListedAt(db, u, i);
    forall c <- rows | c != list[i].button ensures DjClass.Outranks(RowAt(rows, list[i].button), RowAt(rows, c)) {
      var j := ListedWhere(db, u, c);
      DifferentButtonsCompare(list[i], list[j]);
    }
  }

  lemma FromRowsIs(list: seq<DjClass.Row>, preferred: Option<int>, auto: DjClass.Row, viewer: DjClass.Row)
    requires DjClass.Choice(list, None, DjClass.Auto) == Some(auto)
    requires DjClass.Choice(list, preferred, DjClass.Viewer) == Some(viewer)
    ensures FromRows(list, preferred) ==
            Resolution(Linked, Some(Badges(DjClass.BuildBadge(auto), DjClass.BuildBadge(viewer))))
  {
  }

  lemma AutoRow(db: Store.Db, u: nat) returns (b: int)
    requires db.Ok() && u in db.classes && db.classes[u] != map[]
    ensures IsHighest(db.classes[u], b)
    ensures DjClass.Choice(Store.ToRows(Store.ListDjClasses(db, u)), None, DjClass.Auto) ==
            Some(RowAt(db.classes[u], b))
  {
    var list := Store.ToRows(Store.ListDjClasses(db, u));
    Store.ListedRows(db, u);
    DjClass.ChoiceShows(list, None, DjClass.Auto);
    var i: nat :| DjClass.Tops(list, i) && DjClass.Choice(list, None, DjClass.Auto) == Some(list[i]);
    TopIsHighest(db, u, i);
    b := list[i].button;
  }

  /** The row on top, and the row that the viewer is shown. */
  lemma ListedBadges(db: Store.Db, u: nat, preferred: Option<int>)
    requires db.Ok() && u in db.classes && db.classes[u] != map[]
    ensures var res := FromRows(Store.ToRows(Store.ListDjClasses(db, u)), preferred);
            res.status == Linked && res.badge.Some? && BadgesOf(db.classes[u], preferred, res.badge.value)
  {
    var rows := db.classes[u];
    var b := AutoRow(db, u);
    ViewerRow(db, u, preferred);
    var v := if preferred.Some? && preferred.value in rows then preferred.value else b;
    FromRowsIs(Store.ToRows(Store.ListDjClasses(db, u)), preferred, RowAt(rows, b), RowAt(rows, v));
  }

  lemma ViewerRow(db: Store.Db, u: nat, preferred: Option<int>)
    requires db.Ok() && u in db.classes && db.classes[u] != map[]
    ensures var rows, list := db.classes[u], Store.ToRows(Store.ListDjClasses(db, u));
            DjClass.Choice(list, preferred, DjClass.Viewer) ==
            if preferred.Some? && preferred.value in rows then Some(RowAt(rows, preferred.value))
            else DjClass.Choice(list, None, DjClass.Auto)
  {
    var rows, list := db.classes[u], Store.ToRows(Store.ListDjClasses(db, u));
    Store.ListedRows(db, u);
    if preferred.Some? {
      var w := DjClass.Wanted(list, preferred.value);
      if preferred.value in rows {
        var i := ListedWhere(db, u, preferred.value);
      } else if w < |list| {
        ListedAt(db, u, w);
      }
    }
  }

  /** A fresh resolution displays what is stored. */
  lemma FreshDisplays(db: Store.Db, sender: string)
    requires db.Ok()
    ensures Displays(db, sender, Fresh(db, sender))
  {
    var u := Store.FindUser(db.users, sender);
    if u < |db.users| {
      Store.ListedRows(db, u);
      if u in db.classes && db.classes[u] != map[] {
        ListedBadges(db, u, db.users[u].preferred);
      }
    }
  }

  /** Which badge is the automatic one does not depend on the preference. */
  lemma AutoIgnoresPreference(rows: map<int, Store.ClassRow>, p: Option<int>, q: Option<int>, a: Badges, b: Badges)
    requires BadgesOf(rows, p, a) && BadgesOf(rows, q, b)
    ensures a.auto == b.auto
  {
    var i :| IsHighest(rows, i) && a.auto == DjClass.BuildBadge(RowAt(rows, i));
    var j :| IsHighest(rows, j) && b.auto == DjClass.BuildBadge(RowAt(rows, j));
    HighestOnce(rows, i, j);
  }

  lemma HighestOnce(rows: map<int, Store.ClassRow>, i: int, j: int)
    requires IsHighest(rows, i) && IsHighest(rows, j)
    ensures i == j
  {
    var a, b := RowAt(rows, i), RowAt(rows, j);
    NotBoth(a, b);
  }

  lemma NotBoth(a: DjClass.Row, b: DjClass.Row)
    ensures !(DjClass.Outranks(a, b) && DjClass.Outranks(b, a))
  {
  }
}

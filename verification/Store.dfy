/**
 * The tables that badges are read from (internal/store): users, V-ARCHIVE links and DJ CLASS rows,
 * the statements that write them, and all-or-nothing transactions. A user's row id is its place in
 * users; users are never deleted.
 */
module Store {
  import opened Wrappers
  import DjClass

  datatype User = User(chzzkId: string, nickname: string, preferred: Option<int>)

  datatype Link = Link(nickname: string, userNo: int, active: bool)

  /** One class as V-ARCHIVE reports it and as it is stored. */
  datatype ClassRow = ClassRow(button: int, class_: string, powerSum: Option<real>, maxPower: Option<real>,
      conversion: Option<real>)

  datatype Db = Db(users: seq<User>, links: map<nat, Link>, classes: map<nat, map<int, ClassRow>>) {
    /** The declared constraints: unique chzzk ids, references to users, one row per real button. */
    predicate Ok() {
      && (forall i, j :: 0 <= i < j < |users| ==> users[i].chzzkId != users[j].chzzkId)
      && (forall u <- links :: u < |users|)
      && (forall u <- classes :: u < |users| && RowsOk(classes[u]))
      && (forall i :: 0 <= i < |users| ==> users[i].preferred.None? || RealButton(users[i].preferred.value))
    }
  }

  predicate RealButton(b: int) {
    b in {4, 5, 6, 8}
  }

  predicate RowsOk(rows: map<int, ClassRow>) {
    forall b <- rows :: RealButton(b) && rows[b].button == b
  }

  // ----- Reads -----

  /** The place of the user with this chzzk id, or |users|. */
  function FindUser(users: seq<User>, chzzkId: string): (u: nat)
    ensures u <= |users|
    ensures u < |users| ==> users[u].chzzkId == chzzkId
    ensures forall i :: 0 <= i < u ==> users[i].chzzkId != chzzkId
  {
    if users == [] || users[0].chzzkId == chzzkId then 0 else 1 + FindUser(users[1..], chzzkId)
  }

  predicate HasActiveLink(db: Db, u: nat) {
    u in db.links && db.links[u].active
  }

  function GetActiveLink(db: Db, u: nat): Option<Link> {
    if HasActiveLink(db, u) then Some(db.links[u]) else None
  }

  function RowsOf(db: Db, u: nat): map<int, ClassRow> {
    if u in db.classes then db.classes[u] else map[]
  }

  /** The rows of the given buttons, in that order. */
  function RowsAt(rows: map<int, ClassRow>, buttons: seq<int>): seq<ClassRow> {
    if buttons == [] then []
    else (if buttons[0] in rows then [rows[buttons[0]]] else []) + RowsAt(rows, buttons[1..])
  }

  /** ORDER BY button. */
  function ListDjClasses(db: Db, u: nat): seq<ClassRow> {
    RowsAt(RowsOf(db, u), [4, 5, 6, 8])
  }

  lemma {:induction false} RowsAtHas(rows: map<int, ClassRow>, buttons: seq<int>)
    ensures forall c :: c in RowsAt(rows, buttons) <==> exists b :: b in buttons && b in rows && rows[b] == c
  {
    if buttons != [] {
      RowsAtHas(rows, buttons[1..]);
      var b0 := buttons[0];
      forall c ensures c in RowsAt(rows, buttons) <==> exists b :: b in buttons && b in rows && rows[b] == c {
        if c in RowsAt(rows, buttons) {
          if c !in RowsAt(rows, buttons[1..]) {
            assert b0 in buttons && b0 in rows && rows[b0] == c;
          } else {
            var b :| b in buttons[1..] && b in rows && rows[b] == c;
            assert b in buttons;
          }
        }
        if b :| b in buttons && b in rows && rows[b] == c {
          assert b == b0 || b in buttons[1..];
        }
      }
    }
  }

  /** Rows in the order of their buttons. */
  predicate Rising(cs: seq<ClassRow>) {
    forall i, j :: 0 <= i < j < |cs| ==> cs[i].button < cs[j].button
  }

  lemma {:induction false} RowsAtRise(rows: map<int, ClassRow>, buttons: seq<int>)
    requires RowsOk(rows) && forall i, j :: 0 <= i < j < |buttons| ==> buttons[i] < buttons[j]
    ensures Rising(RowsAt(rows, buttons))
  {
    if buttons != [] {
      RowsAtRise(rows, buttons[1..]);
      RowsAtHas(rows, buttons[1..]);
      var later := RowsAt(rows, buttons[1..]);
      forall i | 0 <= i < |later| ensures buttons[0] < later[i].button {
        assert later[i] in later;
        var b :| b in buttons[1..] && b in rows && rows[b] == later[i];
      }
    }
  }

  /** The stored rows of a user are listed once each, by button. */
  lemma ListedRows(db: Db, u: nat)
    requires db.Ok()
    ensures forall c :: c in ListDjClasses(db, u) <==>
            u in db.classes && c.button in db.classes[u] && db.classes[u][c.button] == c
    ensures Rising(ListDjClasses(db, u))
    ensures ListDjClasses(db, u) == [] <==> u !in db.classes || db.classes[u] == map[]
  {
    var rows, cs := RowsOf(db, u), ListDjClasses(db, u);
    RowsAtHas(rows, [4, 5, 6, 8]);
    RowsAtRise(rows, [4, 5, 6, 8]);
    forall c ensures c in cs <==> c.button in rows && rows[c.button] == c {
      if c.button in rows && rows[c.button] == c {
        assert c.button in [4, 5, 6, 8];
      }
    }
    forall b <- rows ensures rows[b] in cs {
    }
    assert cs == [] ==> forall b :: b !in rows;
    assert cs == [] ==> rows == map[];
    if cs != [] {
      assert cs[0] in cs;
    }
  }

  function ToRow(c: ClassRow): DjClass.Row {
    DjClass.Row(c.button, c.class_, c.conversion)
  }

  function ToRows(cs: seq<ClassRow>): (rows: seq<DjClass.Row>)
    ensures |rows| == |cs| && forall i :: 0 <= i < |cs| ==> rows[i] == ToRow(cs[i])
    ensures forall i :: 0 <= i < |cs| ==>
              rows[i].button == cs[i].button && rows[i].class_ == cs[i].class_ && rows[i].conversion == cs[i].conversion
  {
    seq(|cs|, i requires 0 <= i < |cs| => ToRow(cs[i]))
  }

  // ----- Writes -----

  datatype Statement =
    | UpsertUser(chzzkId: string, nickname: string)
    | UpsertLink(user: nat, vnickname: string, userNo: int)
    | DeactivateLink(user: nat)
    | DeleteDjClasses(user: nat)
    | UpsertDjClass(user: nat, row: ClassRow)
    | SetPreferredButton(user: nat, button: Option<int>)

  /** None when a constraint refuses the statement. */
  function Exec(db: Db, st: Statement): Option<Db> {
    match st
    case UpsertUser(chzzkId, nickname) =>
      var u := FindUser(db.users, chzzkId);
      if u < |db.users| then Some(db.(users := db.users[u := db.users[u].(nickname := nickname)]))
      else Some(db.(users := db.users + [User(chzzkId, nickname, None)]))
    case UpsertLink(u, vnickname, userNo) =>
      if u >= |db.users| then None else Some(db.(links := db.links[u := Link(vnickname, userNo, true)]))
    case DeactivateLink(u) =>
      if u in db.links then Some(db.(links := db.links[u := db.links[u].(active := false)])) else Some(db)
    case DeleteDjClasses(u) => Some(db.(classes := db.classes - {u}))
    case UpsertDjClass(u, row) =>
      if u >= |db.users| || !RealButton(row.button) then None
      else Some(db.(classes := db.classes[u := RowsOf(db, u)[row.button := row]]))
    case SetPreferredButton(u, button) =>
      if button.Some? && !RealButton(button.value) && u < |db.users| then None
      else if u < |db.users| then Some(db.(users := db.users[u := db.users[u].(preferred := button)]))
      else Some(db)
  }

  function ExecAll(db: Db, sts: seq<Statement>): Option<Db>
    decreases |sts|
  {
    if sts == [] then Some(db)
    else
      match Exec(db, sts[0])
      case None => None
      case Some(db') => ExecAll(db', sts[1..])
  }

  /** One write transaction: every statement, or none. */
  function WriteTx(db: Db, sts: seq<Statement>): (Db, bool) {
    match ExecAll(db, sts)
    case Some(db') => (db', true)
    case None => (db, false)
  }

  lemma ExecKeepsOk(db: Db, st: Statement)
    requires db.Ok() && Exec(db, st).Some?
    ensures Exec(db, st).value.Ok()
  {
  }

  lemma {:induction false} ExecAllKeepsOk(db: Db, sts: seq<Statement>)
    requires db.Ok() && ExecAll(db, sts).Some?
    ensures ExecAll(db, sts).value.Ok()
    decreases |sts|
  {
    if sts != [] {
      ExecKeepsOk(db, sts[0]);
      ExecAllKeepsOk(Exec(db, sts[0]).value, sts[1..]);
    }
  }

  // ----- The transactions of the link service -----

  function LinkTx(u: nat, nickname: string, userNo: int): seq<Statement> {
    [UpsertLink(u, nickname, userNo)]
  }

  function Upserts(u: nat, classes: seq<ClassRow>): seq<Statement> {
    seq(|classes|, i requires 0 <= i < |classes| => UpsertDjClass(u, classes[i]))
  }

  function SyncTx(u: nat, classes: seq<ClassRow>): seq<Statement> {
    [DeleteDjClasses(u)] + Upserts(u, classes)
  }

  function UnlinkTx(u: nat): seq<Statement> {
    [DeactivateLink(u), DeleteDjClasses(u), SetPreferredButton(u, None)]
  }

  function PreferTx(u: nat, button: Option<int>): seq<Statement> {
    [SetPreferredButton(u, button)]
  }

  // ----- What a sync leaves behind -----

  /** The last class of each button wins, as in a run of upserts. */
  function Stored(rows: map<int, ClassRow>, classes: seq<ClassRow>): map<int, ClassRow>
    decreases |classes|
  {
    if classes == [] then rows else Stored(rows[classes[0].button := classes[0]], classes[1..])
  }

  lemma {:induction false} UpsertsStore(db: Db, u: nat, classes: seq<ClassRow>)
    requires u < |db.users| && forall i :: 0 <= i < |classes| ==> RealButton(classes[i].button)
    ensures ExecAll(db, Upserts(u, classes)).Some?
    ensures ExecAll(db, Upserts(u, classes)).value.users == db.users
    ensures ExecAll(db, Upserts(u, classes)).value.links == db.links
    ensures RowsOf(ExecAll(db, Upserts(u, classes)).value, u) == Stored(RowsOf(db, u), classes)
    decreases |classes|
  {
    if classes != [] {
      var sts := Upserts(u, classes);
      assert sts[1..] == Upserts(u, classes[1..]);
      UpsertsStore(Exec(db, sts[0]).value, u, classes[1..]);
    }
  }

  lemma {:induction false} StoredHolds(rows: map<int, ClassRow>, classes: seq<ClassRow>)
    requires forall i, j :: 0 <= i < j < |classes| ==> classes[i].button != classes[j].button
    ensures forall i :: 0 <= i < |classes| ==>
              classes[i].button in Stored(rows, classes) && Stored(rows, classes)[classes[i].button] == classes[i]
    ensures forall b <- Stored(rows, classes) ::
              || (b in rows && Stored(rows, classes)[b] == rows[b])
              || exists i :: 0 <= i < |classes| && classes[i].button == b
    ensures forall b <- rows :: (forall i :: 0 <= i < |classes| ==> classes[i].button != b) ==>
              b in Stored(rows, classes) && Stored(rows, classes)[b] == rows[b]
    decreases |classes|
  {
    if classes != [] {
      var rows' := rows[classes[0].button := classes[0]];
      StoredHolds(rows', classes[1..]);
      assert Stored(rows, classes) == Stored(rows', classes[1..]);
      forall b | b in Stored(rows, classes)
        ensures || (b in rows && Stored(rows, classes)[b] == rows[b])
                || exists i :: 0 <= i < |classes| && classes[i].button == b
      {
        if exists i :: 0 <= i < |classes| - 1 && classes[1..][i].button == b {
          var i :| 0 <= i < |classes| - 1 && classes[1..][i].button == b;
          assert classes[i + 1].button == b;
        } else if b == classes[0].button {
          assert classes[0].button == b;
        }
      }
      forall i | 0 <= i < |classes|
        ensures classes[i].button in Stored(rows, classes) && Stored(rows, classes)[classes[i].button] == classes[i]
      {
        if i > 0 {
          assert classes[1..][i - 1] == classes[i];
        }
      }
    }
  }

  /** After a sync the stored rows are exactly the fetched classes. */
  lemma SyncStoresTheFetch(db: Db, u: nat, classes: seq<ClassRow>)
    requires u < |db.users|
    requires forall i :: 0 <= i < |classes| ==> RealButton(classes[i].button)
    requires forall i, j :: 0 <= i < j < |classes| ==> classes[i].button != classes[j].button
    ensures WriteTx(db, SyncTx(u, classes)).1
    ensures var rows := RowsOf(WriteTx(db, SyncTx(u, classes)).0, u);
            && (forall c :: c in classes <==> c.button in rows && rows[c.button] == c)
            && (forall b <- rows :: rows[b] in classes && rows[b].button == b)
    ensures WriteTx(db, SyncTx(u, classes)).0.links == db.links && WriteTx(db, SyncTx(u, classes)).0.users == db.users
  {
    var db1 := db.(classes := db.classes - {u});
    var sts := SyncTx(u, classes);
    assert sts[1..] == Upserts(u, classes);
    assert Exec(db, sts[0]) == Some(db1);
    UpsertsStore(db1, u, classes);
    StoredHolds(map[], classes);
    var rows := RowsOf(WriteTx(db, sts).0, u);
    assert rows == Stored(map[], classes);
    forall b | b in rows ensures rows[b] in classes && rows[b].button == b {
      var i :| 0 <= i < |classes| && classes[i].button == b;
      assert rows[b] == classes[i];
    }
    forall c ensures c in classes <==> c.button in rows && rows[c.button] == c {
      if c in classes {
        var i :| 0 <= i < |classes| && classes[i] == c;
      }
    }
  }
}

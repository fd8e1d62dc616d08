/**
 * The TTL cache (internal/ttlcache/ttlcache.go) as a value: its entries in insertion order. The
 * clock is a parameter of each operation.
 */
module TtlCache {
  import opened Wrappers

  datatype Entry<V> = Entry(key: string, value: V, expires: int)

  /** The position of key, or |s|. */
  function Pos<V>(s: seq<Entry<V>>, key: string): (p: nat)
    ensures p <= |s|
    ensures p < |s| ==> s[p].key == key
    ensures forall i :: 0 <= i < p ==> s[i].key != key
  {
    if s == [] || s[0].key == key then 0 else 1 + Pos(s[1..], key)
  }

  predicate Has<V>(s: seq<Entry<V>>, key: string) {
    Pos(s, key) < |s|
  }

  function Without<T>(s: seq<T>, p: nat): seq<T>
    requires p < |s|
  {
    s[..p] + s[p + 1..]
  }

  /** An entry read at its expiry or later is dropped. */
  function Get<V>(s: seq<Entry<V>>, key: string, now: int): (seq<Entry<V>>, Option<V>) {
    var p := Pos(s, key);
    if p == |s| then (s, None)
    else if now >= s[p].expires then (Without(s, p), None)
    else (s, Some(s[p].value))
  }

  /** A key already there keeps its place; a new one goes last and may push the first one out. */
  function Set<V>(max: nat, s: seq<Entry<V>>, key: string, value: V, now: int, ttl: int): seq<Entry<V>>
    requires 1 <= max
  {
    var p := Pos(s, key);
    var e := Entry(key, value, now + ttl);
    if p < |s| then s[p := e]
    else (if |s| >= max then s[1..] else s) + [e]
  }

  function Delete<V>(s: seq<Entry<V>>, key: string): seq<Entry<V>> {
    var p := Pos(s, key);
    if p == |s| then s else Without(s, p)
  }

  predicate Distinct<V>(s: seq<Entry<V>>) {
    forall i, j :: 0 <= i < j < |s| ==> s[i].key != s[j].key
  }

  lemma PosIs<V>(s: seq<Entry<V>>, key: string, p: nat)
    requires p < |s| && s[p].key == key && Distinct(s)
    ensures Pos(s, key) == p
  {
  }

  function Keys<V>(s: seq<Entry<V>>): set<string> {
    set i | 0 <= i < |s| :: s[i].key
  }

  lemma KeysHas<V>(s: seq<Entry<V>>, key: string)
    ensures key in Keys(s) <==> Has(s, key)
  {
  }

  lemma {:induction false} KeysSize<V>(s: seq<Entry<V>>)
    requires Distinct(s)
    ensures |Keys(s)| == |s|
  {
    if s == [] {
      assert Keys(s) == {};
    } else {
      var n := |s| - 1;
      KeysSize(s[..n]);
      assert Keys(s) == Keys(s[..n]) + {s[n].key};
      assert s[n].key !in Keys(s[..n]);
    }
  }

  lemma AbsentAfterEviction<V>(s: seq<Entry<V>>, key: string, rest: seq<Entry<V>>)
    requires !Has(s, key) && (rest == s || (s != [] && rest == s[1..]))
    ensures !Has(rest, key)
  {
  }

  // ----- Histories -----

  datatype Op<V> = GetOp(key: string, at: int) | SetOp(key: string, value: V, at: int, ttl: int) | DeleteOp(key: string)

  function Step<V>(max: nat, s: seq<Entry<V>>, op: Op<V>): seq<Entry<V>>
    requires 1 <= max
  {
    match op
    case GetOp(key, at) => Get(s, key, at).0
    case SetOp(key, value, at, ttl) => Set(max, s, key, value, at, ttl)
    case DeleteOp(key) => Delete(s, key)
  }

  /** The cache after a history of operations, starting empty. */
  function Run<V>(max: nat, ops: seq<Op<V>>): seq<Entry<V>>
    requires 1 <= max
  {
    if ops == [] then [] else Step(max, Run(max, ops[..|ops| - 1]), ops[|ops| - 1])
  }

  lemma WithoutKeeps<V>(s: seq<Entry<V>>, p: nat)
    requires p < |s| && Distinct(s)
    ensures Distinct(Without(s, p))
  {
  }

  lemma SetKeeps<V>(max: nat, s: seq<Entry<V>>, key: string, value: V, now: int, ttl: int)
    requires 1 <= max && Distinct(s) && |s| <= max
    ensures Distinct(Set(max, s, key, value, now, ttl)) && |Set(max, s, key, value, now, ttl)| <= max
  {
  }

  lemma StepKeeps<V>(max: nat, s: seq<Entry<V>>, op: Op<V>)
    requires 1 <= max && Distinct(s) && |s| <= max
    ensures Distinct(Step(max, s, op)) && |Step(max, s, op)| <= max
  {
    if op.SetOp? {
      SetKeeps(max, s, op.key, op.value, op.at, op.ttl);
    } else if Has(s, op.key) {
      WithoutKeeps(s, Pos(s, op.key));
    }
  }

  lemma {:induction false} NeverOverfull<V>(max: nat, ops: seq<Op<V>>)
    requires 1 <= max
    ensures Distinct(Run(max, ops)) && |Run(max, ops)| <= max
  {
    if ops != [] {
      NeverOverfull(max, ops[..|ops| - 1]);
      StepKeeps(max, Run(max, ops[..|ops| - 1]), ops[|ops| - 1]);
    }
  }

  /** Operation i is the last one that set or deleted key, and it set it to value until expires. */
  ghost predicate LatestSet<V>(ops: seq<Op<V>>, i: nat, key: string, value: V, expires: int) {
    && i < |ops|
    && ops[i].SetOp? && ops[i].key == key && ops[i].value == value && ops[i].at + ops[i].ttl == expires
    && forall j :: i < j < |ops| && !ops[j].GetOp? ==> ops[j].key != key
  }

  /** An entry after a step is the one just set, or an older one of a key that the step did not touch. */
  lemma WhereFrom<V>(max: nat, before: seq<Entry<V>>, op: Op<V>, p: nat)
    requires 1 <= max && Distinct(before) && |before| <= max && p < |Step(max, before, op)|
    ensures var e := Step(max, before, op)[p];
            || (op.SetOp? && e == Entry(op.key, op.value, op.at + op.ttl))
            || (e in before && (op.GetOp? || e.key != op.key))
  {
    StepKeeps(max, before, op);
    var after := Step(max, before, op);
    var q := Pos(before, op.key);
    if op.SetOp? {
      var e := Entry(op.key, op.value, op.at + op.ttl);
      assert after[if q < |before| then q else |after| - 1] == e;
      assert after[p] == e || after[p] in before;
    }
  }

  lemma LatestSetStays<V>(before: seq<Op<V>>, op: Op<V>, i: nat, key: string, value: V, expires: int)
    requires LatestSet(before, i, key, value, expires) && (op.GetOp? || op.key != key)
    ensures LatestSet(before + [op], i, key, value, expires)
  {
  }

  lemma {:induction false} EntriesAreLatestSets<V>(max: nat, ops: seq<Op<V>>, s: seq<Entry<V>>, p: nat) returns (i: nat)
    requires 1 <= max && s == Run(max, ops) && p < |s|
    ensures LatestSet(ops, i, s[p].key, s[p].value, s[p].expires)
    decreases |ops|
  {
    var n := |ops| - 1;
    var before, op, e := Run(max, ops[..n]), ops[n], s[p];
    NeverOverfull(max, ops[..n]);
    WhereFrom(max, before, op, p);
    if op.SetOp? && e == Entry(op.key, op.value, op.at + op.ttl) {
      i := n;
    } else {
      var q :| 0 <= q < |before| && before[q] == e;
      i := EntriesAreLatestSets(max, ops[..n], before, q);
      LatestSetStays(ops[..n], op, i, e.key, e.value, e.expires);
      assert ops == ops[..n] + [op];
    }
  }

  /**
   * Over any history: a hit at time t returns what the latest Set of the key stored, that Set has
   * not expired at t, and no Delete of the key came after it.
   */
  lemma HitIsLatestSet<V>(max: nat, ops: seq<Op<V>>, key: string, t: int) returns (i: nat)
    requires 1 <= max && Get(Run(max, ops), key, t).1.Some?
    ensures exists expires ::
              LatestSet(ops, i, key, Get(Run(max, ops), key, t).1.value, expires) && t < expires
  {
    var p := Pos(Run(max, ops), key);
    i := EntriesAreLatestSets(max, ops, Run(max, ops), p);
    assert LatestSet(ops, i, key, Get(Run(max, ops), key, t).1.value, Run(max, ops)[p].expires);
  }

  // ----- Survival -----

  function RunFrom<V>(max: nat, s: seq<Entry<V>>, ops: seq<Op<V>>): seq<Entry<V>>
    requires 1 <= max
    decreases |ops|
  {
    if ops == [] then s else RunFrom(max, Step(max, s, ops[0]), ops[1..])
  }

  /** How many operations insert a key that is absent at that moment. */
  function Insertions<V>(max: nat, s: seq<Entry<V>>, ops: seq<Op<V>>): nat
    requires 1 <= max
    decreases |ops|
  {
    if ops == [] then 0
    else (if ops[0].SetOp? && !Has(s, ops[0].key) then 1 else 0) + Insertions(max, Step(max, s, ops[0]), ops[1..])
  }

  /** No operation deletes key, and none reads it at or after its expiry. */
  predicate Undisturbed<V>(max: nat, s: seq<Entry<V>>, ops: seq<Op<V>>, key: string)
    requires 1 <= max
    decreases |ops|
  {
    ops == [] ||
    (&& !(ops[0].DeleteOp? && ops[0].key == key)
     && !(ops[0].GetOp? && ops[0].key == key && Has(s, key) && ops[0].at >= s[Pos(s, key)].expires)
     && Undisturbed(max, Step(max, s, ops[0]), ops[1..], key))
  }

  /** How many entries are younger than key. */
  function Younger<V>(s: seq<Entry<V>>, key: string): nat
    requires Has(s, key)
  {
    |s| - 1 - Pos(s, key)
  }

  lemma StepAges<V>(max: nat, s: seq<Entry<V>>, op: Op<V>, key: string)
    requires 1 <= max && Distinct(s) && |s| <= max && Has(s, key)
    requires Undisturbed(max, s, [op], key)
    requires Younger(s, key) + (if op.SetOp? && !Has(s, op.key) then 1 else 0) < max
    ensures var s' := Step(max, s, op);
            Has(s', key) && Younger(s', key) <= Younger(s, key) + (if op.SetOp? && !Has(s, op.key) then 1 else 0)
  {
    var s' := Step(max, s, op);
    var p := Pos(s, key);
    StepKeeps(max, s, op);
    if op.SetOp? {
      if Has(s, op.key) {
        PosIs(s', key, p);
      } else if |s| >= max {
        PosIs(s', key, p - 1);
      } else {
        PosIs(s', key, p);
      }
    } else if Has(s, op.key) && |s'| < |s| {
      var q := Pos(s, op.key);
      PosIs(s', key, if p < q then p else p - 1);
    }
  }

  /**
   * First in, first out: an entry outlives any run that neither deletes it nor lets it expire, as
   * long as fewer than max absent keys are inserted after it.
   */
  lemma {:induction false} Survives<V>(max: nat, s: seq<Entry<V>>, ops: seq<Op<V>>, key: string)
    requires 1 <= max && Distinct(s) && |s| <= max && Has(s, key)
    requires Undisturbed(max, s, ops, key)
    requires Younger(s, key) + Insertions(max, s, ops) < max
    ensures Has(RunFrom(max, s, ops), key)
    decreases ops
  {
    if ops != [] {
      StepAges(max, s, ops[0], key);
      StepKeeps(max, s, ops[0]);
      Survives(max, Step(max, s, ops[0]), ops[1..], key);
    }
  }

  /** In particular from the moment of its own insertion. */
  lemma SurvivesInsertion<V>(max: nat, s: seq<Entry<V>>, key: string, value: V, at: int, ttl: int, ops: seq<Op<V>>)
    requires 1 <= max && Distinct(s) && |s| <= max && !Has(s, key)
    requires var s1 := Set(max, s, key, value, at, ttl);
             Undisturbed(max, s1, ops, key) && Insertions(max, s1, ops) < max
    ensures Has(RunFrom(max, Set(max, s, key, value, at, ttl), ops), key)
  {
    var s1 := Set(max, s, key, value, at, ttl);
    StepKeeps(max, s, SetOp(key, value, at, ttl));
    PosIs(s1, key, |s1| - 1);
    Survives(max, s1, ops, key);
  }

  /** What a Get answers: an entry that is there until its expiry, and nothing from then on; then it is gone. */
  lemma GetAnswers<V>(s: seq<Entry<V>>, e: Entry<V>, now: int)
    requires Distinct(s) && e in s
    ensures now < e.expires ==> Get(s, e.key, now) == (s, Some(e.value))
    ensures now >= e.expires ==> Get(s, e.key, now).1 == None && !Has(Get(s, e.key, now).0, e.key)
    ensures forall other :: other in s && other != e ==> other in Get(s, e.key, now).0
  {
    var i :| 0 <= i < |s| && s[i] == e;
    PosIs(s, e.key, i);
    forall other | other in s && other != e ensures other in Get(s, e.key, now).0 {
      var j :| 0 <= j < |s| && s[j] == other;
      if now >= e.expires {
        assert Without(s, i)[if j < i then j else j - 1] == other;
      }
    }
  }

  /** A Delete takes the key's entry and nothing else. */
  lemma DeleteTakesOne<V>(s: seq<Entry<V>>, key: string, e: Entry<V>)
    requires Distinct(s)
    ensures e in Delete(s, key) <==> e in s && e.key != key
  {
    var p := Pos(s, key);
    if p < |s| && e in s && e.key != key {
      var j :| 0 <= j < |s| && s[j] == e;
      assert Without(s, p)[if j < p then j else j - 1] == e;
    }
  }

  lemma StepKeepsEntry<V>(max: nat, s: seq<Entry<V>>, op: Op<V>, e: Entry<V>)
    requires 1 <= max && Distinct(s) && e in s && !(op.SetOp? && op.key == e.key)
    requires Has(Step(max, s, op), e.key)
    ensures e in Step(max, s, op)
  {
    var s' := Step(max, s, op);
    var q := Pos(s', e.key);
    assert s'[q] in s;
    var i :| 0 <= i < |s| && s[i] == e;
    PosIs(s, e.key, i);
    var j :| 0 <= j < |s| && s[j] == s'[q];
    PosIs(s, e.key, j);
  }

  /**
   * What was set is found again: as long as fewer than max absent keys are inserted after it, and nobody sets,
   * deletes or reads it expired, a Get before the expiry returns the value.
   */
  lemma {:induction false} FoundUntilExpiry<V>(max: nat, s: seq<Entry<V>>, ops: seq<Op<V>>, e: Entry<V>, now: int)
    requires 1 <= max && Distinct(s) && |s| <= max && e in s && Has(s, e.key)
    requires Undisturbed(max, s, ops, e.key) && Younger(s, e.key) + Insertions(max, s, ops) < max
    requires forall i :: 0 <= i < |ops| ==> !(ops[i].SetOp? && ops[i].key == e.key)
    ensures Get(RunFrom(max, s, ops), e.key, now).1 == if now < e.expires then Some(e.value) else None
    decreases |ops|
  {
    if ops == [] {
      GetAnswers(s, e, now);
    } else {
      StepAges(max, s, ops[0], e.key);
      StepKeeps(max, s, ops[0]);
      StepKeepsEntry(max, s, ops[0], e);
      FoundUntilExpiry(max, Step(max, s, ops[0]), ops[1..], e, now);
    }
  }

  /** How many operations push the first entry out of a full cache. */
  function Evictions<V>(max: nat, s: seq<Entry<V>>, ops: seq<Op<V>>): nat
    requires 1 <= max
    decreases |ops|
  {
    if ops == [] then 0
    else
      (if ops[0].SetOp? && !Has(s, ops[0].key) && |s| >= max then 1 else 0)
          + Evictions(max, Step(max, s, ops[0]), ops[1..])
  }

  /** key is only ever set while it is present. */
  predicate NotReinserted<V>(max: nat, s: seq<Entry<V>>, ops: seq<Op<V>>, key: string)
    requires 1 <= max
    decreases |ops|
  {
    ops == [] ||
    (&& (ops[0].SetOp? && ops[0].key == key ==> Has(s, key))
     && NotReinserted(max, Step(max, s, ops[0]), ops[1..], key))
  }

  /** An entry that is still there after the first one was dropped and another appended was not the first. */
  lemma EvictionAdvances<V>(s: seq<Entry<V>>, e: Entry<V>, key: string)
    requires s != [] && Distinct(s) && e.key != key && Has(s[1..] + [e], key)
    ensures Pos(s[1..] + [e], key) + 1 == Pos(s, key)
  {
    var q := Pos(s[1..] + [e], key);
    PosIs(s, key, q + 1);
  }

  lemma RemovalAdvances<V>(s: seq<Entry<V>>, r: nat, key: string)
    requires r < |s| && Distinct(s) && Has(Without(s, r), key)
    ensures Pos(Without(s, r), key) <= Pos(s, key)
  {
    var q := Pos(Without(s, r), key);
    PosIs(s, key, if q < r then q else q + 1);
  }

  lemma OverwriteStays<V>(s: seq<Entry<V>>, r: nat, e: Entry<V>, key: string)
    requires r < |s| && Distinct(s) && e.key == s[r].key && Has(s[r := e], key)
    ensures Pos(s[r := e], key) == Pos(s, key)
  {
    PosIs(s, key, Pos(s[r := e], key));
  }

  /** An eviction brings an entry nearer to the front, and nothing moves it away from there. */
  lemma StepAdvances<V>(max: nat, s: seq<Entry<V>>, op: Op<V>, key: string)
    requires 1 <= max && Distinct(s) && Has(s, key) && Has(Step(max, s, op), key)
    ensures Pos(Step(max, s, op), key) + (if op.SetOp? && !Has(s, op.key) && |s| >= max then 1 else 0) <= Pos(s, key)
  {
    var r := Pos(s, op.key);
    if op.SetOp? {
      var e := Entry(op.key, op.value, op.at + op.ttl);
      if r < |s| {
        OverwriteStays(s, r, e, key);
      } else if |s| >= max {
        EvictionAdvances(s, e, key);
      } else {
        PosIs(s, key, Pos(s + [e], key));
      }
    } else if r < |s| && Step(max, s, op) != s {
      RemovalAdvances(s, r, key);
    }
  }

  /**
   * The bound is sharp: whatever else happens, an entry is gone after one eviction more than there were
   * older entries, unless it is inserted anew.
   */
  lemma {:induction false} PushedOut<V>(max: nat, s: seq<Entry<V>>, ops: seq<Op<V>>, key: string)
    requires 1 <= max && Distinct(s) && |s| <= max && Has(s, key)
    requires NotReinserted(max, s, ops, key) && Evictions(max, s, ops) > Pos(s, key)
    ensures !Has(RunFrom(max, s, ops), key)
    decreases ops
  {
    var s' := Step(max, s, ops[0]);
    StepKeeps(max, s, ops[0]);
    if Has(s', key) {
      StepAdvances(max, s, ops[0], key);
      PushedOut(max, s', ops[1..], key);
    } else {
      StaysOut(max, s', ops[1..], key);
    }
  }

  lemma {:induction false} StaysOut<V>(max: nat, s: seq<Entry<V>>, ops: seq<Op<V>>, key: string)
    requires 1 <= max && !Has(s, key) && NotReinserted(max, s, ops, key)
    ensures !Has(RunFrom(max, s, ops), key)
    decreases ops
  {
    if ops != [] {
      var s' := Step(max, s, ops[0]);
      forall i | 0 <= i < |s'| ensures s'[i].key != key {
        assert s'[i] in s || (ops[0].SetOp? && s'[i].key == ops[0].key);
      }
      StaysOut(max, s', ops[1..], key);
    }
  }

  /** In a full cache, where every insertion evicts: as many insertions as Survives allows are too many. */
  lemma {:induction false} FullCachePushesOut<V>(max: nat, s: seq<Entry<V>>, ops: seq<Op<V>>, key: string)
    requires 1 <= max && Distinct(s) && |s| == max && Has(s, key)
    requires forall i :: 0 <= i < |ops| ==> ops[i].SetOp? && ops[i].key != key
    requires Younger(s, key) + Insertions(max, s, ops) >= max
    ensures !Has(RunFrom(max, s, ops), key)
  {
    SetsOnlyEvict(max, s, ops, key);
    PushedOut(max, s, ops, key);
  }

  lemma {:induction false} SetsOnlyEvict<V>(max: nat, s: seq<Entry<V>>, ops: seq<Op<V>>, key: string)
    requires 1 <= max && |s| == max && forall i :: 0 <= i < |ops| ==> ops[i].SetOp? && ops[i].key != key
    ensures Evictions(max, s, ops) == Insertions(max, s, ops) && NotReinserted(max, s, ops, key)
    decreases |ops|
  {
    if ops != [] {
      SetsOnlyEvict(max, Step(max, s, ops[0]), ops[1..], key);
    }
  }

  // ----- Eviction order -----

  /** The operation that inserted the present entry of key. */
  function Born<V>(max: nat, ops: seq<Op<V>>, key: string): nat
    requires 1 <= max
  {
    if ops == [] then 0
    else
      var n := |ops| - 1;
      if ops[n].SetOp? && ops[n].key == key && !Has(Run(max, ops[..n]), key) then n else Born(max, ops[..n], key)
  }

  lemma {:induction false} BornEarlier<V>(max: nat, ops: seq<Op<V>>, key: string)
    requires 1 <= max && ops != []
    ensures Born(max, ops, key) < |ops|
  {
    if |ops| > 1 {
      BornEarlier(max, ops[..|ops| - 1], key);
    }
  }

  /**
   * The entries stand in the order in which they were inserted, whatever was overwritten since; so
   * the first one, which Set evicts from a full cache, is the one inserted longest ago.
   */
  lemma {:induction false} OldestFirst<V>(max: nat, ops: seq<Op<V>>)
    requires 1 <= max
    ensures forall i, j :: 0 <= i < j < |Run(max, ops)| ==>
              Born(max, ops, Run(max, ops)[i].key) < Born(max, ops, Run(max, ops)[j].key)
  {
    if ops != [] {
      var n := |ops| - 1;
      var before, after, op := Run(max, ops[..n]), Run(max, ops), ops[n];
      OldestFirst(max, ops[..n]);
      NeverOverfull(max, ops[..n]);
      NeverOverfull(max, ops);
      forall i, j | 0 <= i < j < |after|
        ensures Born(max, ops, after[i].key) < Born(max, ops, after[j].key)
      {
        if op.SetOp? && !Has(before, op.key) {
          assert after[i] in before;
          assert j == |after| - 1 ==> after[j].key == op.key;
          assert j < |after| - 1 ==> after[j] in before;
          if n > 0 {
            BornEarlier(max, ops[..n], after[i].key);
          }
        }
      }
    }
  }

  /** A Set that evicts takes out exactly the entry inserted longest ago. */
  lemma EvictsTheOldest<V>(max: nat, ops: seq<Op<V>>, key: string, value: V, at: int, ttl: int, other: string)
    requires 1 <= max && |Run(max, ops)| == max && !Has(Run(max, ops), key)
    requires Has(Run(max, ops), other)
    ensures Has(Set(max, Run(max, ops), key, value, at, ttl), other) <==>
            exists k :: Has(Run(max, ops), k) && Born(max, ops, k) < Born(max, ops, other)
  {
    var s := Run(max, ops);
    var s' := Set(max, s, key, value, at, ttl);
    NeverOverfull(max, ops);
    OldestFirst(max, ops);
    var p := Pos(s, other);
    if p == 0 {
      forall i | 0 <= i < |s'| ensures s'[i].key != other {
      }
      forall k | Has(s, k) ensures Born(max, ops, k) >= Born(max, ops, other) {
        var q := Pos(s, k);
        assert s[q].key == k && s[p].key == other;
      }
    } else {
      StepKeeps(max, s, SetOp(key, value, at, ttl));
      PosIs(s', other, p - 1);
      PosIs(s, s[0].key, 0);
      assert Has(s, s[0].key) && Born(max, ops, s[0].key) < Born(max, ops, s[p].key);
    }
  }
}

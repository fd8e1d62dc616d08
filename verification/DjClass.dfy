/**
 * The DJ CLASS badge rules (internal/djclass/djclass.go): parsing a class text, ranking a player's
 * rows, and the badge that a row becomes. Conversions are reals.
 */
module DjClass {
  import opened Text
  import opened Wrappers

  const THEORY_POWER := 10000
  const THEORY_CONVERSION := 9999.9847
  const LORD := "THE LORD OF DJMAX"

  /** Best first. */
  const RANK_ORDER: seq<string> := [
    LORD, "BEAT MAESTRO", "SHOWSTOPPER", "HEADLINER", "TREND SETTER", "PROFESSIONAL", "HIGH CLASS",
    "PRO DJ", "MIDDLEMAN", "STREET DJ", "ROOKIE", "AMATEUR", "TRAINEE", "BEGINNER"]

  /** The power floor of each rank, by its place in RANK_ORDER and level; a rank without levels has one at "default". */
  const RANK_THRESHOLDS: seq<map<string, int>> := [
    map["default" := 9980],
    map["IV" := 9900, "III" := 9930, "II" := 9950, "I" := 9970],
    map["IV" := 9700, "III" := 9750, "II" := 9800, "I" := 9850],
    map["IV" := 9400, "III" := 9500, "II" := 9600, "I" := 9650],
    map["IV" := 9000, "III" := 9100, "II" := 9200, "I" := 9300],
    map["IV" := 8600, "III" := 8700, "II" := 8800, "I" := 8900],
    map["IV" := 7800, "III" := 8000, "II" := 8200, "I" := 8400],
    map["IV" := 7000, "III" := 7200, "II" := 7400, "I" := 7600],
    map["IV" := 6200, "III" := 6400, "II" := 6600, "I" := 6800],
    map["IV" := 5200, "III" := 5500, "II" := 5800, "I" := 6000],
    map["IV" := 4000, "III" := 4300, "II" := 4600, "I" := 4900],
    map["IV" := 2400, "III" := 2800, "II" := 3200, "I" := 3600],
    map["IV" := 500, "III" := 1000, "II" := 1500, "I" := 2000],
    map["default" := 0]]

  const SHORT_NAMES: seq<string> :=
      ["LoD", "BM", "SS", "HL", "TS", "PRO", "HC", "PD", "MM", "SD", "RK", "AM", "TR", "BG"]

  datatype Row = Row(button: int, class_: string, conversion: Option<real>)

  datatype Badge = Badge(button: int, class_: string, rank: string, power: Option<int>, threshold: Option<int>,
      isTheory: bool)

  // ----- Parsing -----

  /** The whitespace class of Go's regular expressions. */
  predicate IsBlank(c: char) {
    c in {'\t', '\n', '\U{000c}', '\r', ' '}
  }

  /** The whitespace that TrimSpace removes. */
  predicate IsSpace(c: char) {
    IsBlank(c)
    || c in {'\U{000b}', '\U{0085}', '\U{00a0}', '\U{1680}', '\U{2028}', '\U{2029}', '\U{202f}', '\U{205f}', '\U{3000}'}
    || '\U{2000}' <= c <= '\U{200a}'
  }

  predicate IsInk(c: char) {
    !IsBlank(c)
  }

  predicate IsRoman(s: string) {
    s in {"I", "II", "III", "IV", "V", "VI", "VII", "VIII", "IX", "X"}
  }

  function UpperChar(c: char): char {
    if 'a' <= c <= 'z' then c - 'a' + 'A' else c
  }

  function Upper(s: string): (r: string)
    ensures |r| == |s| && forall i :: 0 <= i < |s| ==> r[i] == UpperChar(s[i])
  {
    seq(|s|, i requires 0 <= i < |s| => UpperChar(s[i]))
  }

  /** Drops a leading button such as "4B ": digits, a B, whitespace. */
  function StripButton(s: string): string {
    var d := Span(s, IsDigit);
    if d == 0 || d == |s| || s[d] != 'B' then s
    else
      var w := Span(s[d + 1..], IsBlank);
      if w == 0 then s else s[d + 1 + w..]
  }

  /** Where the last word begins. */
  function LastWord(s: string): (n: nat)
    ensures n <= |s|
    ensures forall i :: n <= i < |s| ==> !IsBlank(s[i])
    ensures n > 0 ==> IsBlank(s[n - 1])
  {
    SuffixFrom(s, IsInk)
  }

  /** The text ends in whitespace and a roman numeral up to ten, in any case. */
  predicate HasLevel(s: string) {
    LastWord(s) > 0 && IsRoman(Upper(s[LastWord(s)..]))
  }

  function StripLevel(s: string): string {
    if HasLevel(s) then s[..SuffixFrom(s[..LastWord(s)], IsBlank)] else s
  }

  function TrimSpace(s: string): string {
    var r := s[Span(s, IsSpace)..];
    r[..SuffixFrom(r, IsSpace)]
  }

  function ParseRankName(class_: string): string {
    var s := TrimSpace(StripLevel(StripButton(class_)));
    if s == "" then "BEGINNER" else s
  }

  function ExtractLevel(class_: string): string {
    if HasLevel(class_) then Upper(class_[LastWord(class_)..]) else ""
  }

  // ----- Badge -----

  predicate IsTheoryPower(power: Option<int>) {
    power.Some? && power.value >= THEORY_POWER
  }

  predicate IsTheoryConversion(conv: Option<real>) {
    conv.Some? && conv.value >= THEORY_CONVERSION
  }

  function ToPowerInteger(conv: Option<real>): Option<int> {
    if conv.None? then None
    else if IsTheoryConversion(conv) then Some(THEORY_POWER)
    else Some(conv.value.Floor)
  }

  /** The place of rank in RANK_ORDER, or its length. */
  function RankIndex(rank: string): (i: nat)
    ensures i <= |RANK_ORDER|
    ensures i < |RANK_ORDER| ==> RANK_ORDER[i] == rank
    ensures i == |RANK_ORDER| ==> rank !in RANK_ORDER
  {
    IndexFrom(rank, 0)
  }

  function IndexFrom(rank: string, from: nat): (i: nat)
    requires from <= |RANK_ORDER|
    ensures from <= i <= |RANK_ORDER|
    ensures i < |RANK_ORDER| ==> RANK_ORDER[i] == rank
    ensures forall j :: from <= j < i ==> RANK_ORDER[j] != rank
    decreases |RANK_ORDER| - from
  {
    if from == |RANK_ORDER| || RANK_ORDER[from] == rank then from else IndexFrom(rank, from + 1)
  }

  function Threshold(rank: string, level: string): Option<int> {
    var i := RankIndex(rank);
    if i == |RANK_ORDER| then None
    else
      var t := RANK_THRESHOLDS[i];
      if "default" in t then Some(t["default"])
      else if level in t then Some(t[level])
      else None
  }

  function BuildBadge(r: Row): Badge {
    var rank := ParseRankName(r.class_);
    var level := ExtractLevel(r.class_);
    var short := if RankIndex(rank) < |RANK_ORDER| then SHORT_NAMES[RankIndex(rank)] else rank;
    var power := ToPowerInteger(r.conversion);
    var text := if level == "" then short else short + " " + level;
    Badge(r.button, text, short, power, Threshold(rank, level), IsTheoryPower(power))
  }

  // ----- Order -----

  /** Rank ordinal, level ordinal, button preference; bigger is better. */
  datatype Key = Key(rank: int, level: int, button: int)

  predicate Less(a: Key, b: Key) {
    a.rank < b.rank || (a.rank == b.rank && (a.level < b.level || (a.level == b.level && a.button < b.button)))
  }

  function LevelValue(level: string): int {
    if level == "I" then 4
    else if level == "II" then 3
    else if level == "III" then 2
    else if level == "IV" then 1
    else 0
  }

  function ButtonPreference(button: int): int {
    match button
    case 8 => 3
    case 5 => 2
    case 6 => 1
    case 4 => 0
    case _ => -1
  }

  function SortKey(r: Row): Key {
    KeyOf(ParseRankName(r.class_), ExtractLevel(r.class_), r.conversion, r.button)
  }

  function KeyOf(rank: string, level: string, conversion: Option<real>, button: int): Key {
    Key(|RANK_ORDER| - 1 - RankIndex(rank),
        if rank == LORD && IsTheoryConversion(conversion) then 5 else LevelValue(level),
        ButtonPreference(button))
  }

  datatype Selection = Auto | Viewer

  /** rows[i] is a best row by key, and the first of the best. */
  ghost predicate FirstBest(rows: seq<Row>, key: Row -> Key, i: nat) {
    && i < |rows|
    && (forall j :: 0 <= j < |rows| ==> !Less(key(rows[i]), key(rows[j])))
    && (forall j :: 0 <= j < i ==> Less(key(rows[j]), key(rows[i])))
  }

  // The documented order without keys: places in lists that name the best first.

  /** I, II, III, IV, and then everything else. */
  function LevelPlace(level: string): nat {
    match level
    case "I" => 1
    case "II" => 2
    case "III" => 3
    case "IV" => 4
    case _ => 5
  }

  /** Theory comes before every level. */
  function Standing(rank: string, level: string, conversion: Option<real>): nat {
    if rank == LORD && conversion.Some? && conversion.value >= 9999.9847 then 0 else LevelPlace(level)
  }

  /** 8, 5, 6, 4, and then everything else. */
  function ButtonPlace(button: int): nat {
    if button == 8 then 0 else if button == 5 then 1 else if button == 6 then 2 else if button == 4 then 3 else 4
  }

  /** a is shown before b: a better rank, then a better level, then a better button. */
  predicate Outranks(a: Row, b: Row) {
    Precedes(PlaceOf(ParseRankName(a.class_), ExtractLevel(a.class_), a.conversion, a.button),
             PlaceOf(ParseRankName(b.class_), ExtractLevel(b.class_), b.conversion, b.button))
  }

  /** Places in the lists of ranks, of levels and of buttons; the smaller is better. */
  datatype Place = Place(rank: nat, level: nat, button: nat)

  function PlaceOf(rank: string, level: string, conversion: Option<real>, button: int): Place {
    Place(RankIndex(rank), Standing(rank, level, conversion), ButtonPlace(button))
  }

  predicate Precedes(p: Place, q: Place) {
    if p.rank != q.rank then p.rank < q.rank
    else if p.level != q.level then p.level < q.level
    else p.button < q.button
  }

  lemma LevelPlaces(level: string)
    ensures LevelPlace(level) == 5 - LevelValue(level)
  {
  }

  lemma ButtonPlaces(button: int)
    ensures ButtonPlace(button) == 3 - ButtonPreference(button)
  {
  }

  lemma PlaceIsKey(rank: string, level: string, conversion: Option<real>, button: int)
    ensures var k, p := KeyOf(rank, level, conversion, button), PlaceOf(rank, level, conversion, button);
            k.rank == |RANK_ORDER| - 1 - p.rank && k.level == 5 - p.level && k.button == 3 - p.button
  {
    LevelPlaces(level);
    ButtonPlaces(button);
  }

  lemma OutranksIsLess(a: Row, b: Row)
    ensures Outranks(a, b) <==> Less(SortKey(b), SortKey(a))
  {
    PlaceIsKey(ParseRankName(a.class_), ExtractLevel(a.class_), a.conversion, a.button);
    PlaceIsKey(ParseRankName(b.class_), ExtractLevel(b.class_), b.conversion, b.button);
  }

  /** No row outranks rows[i], and rows[i] outranks every row before it. */
  ghost predicate Tops(rows: seq<Row>, i: nat) {
    && i < |rows|
    && (forall j :: 0 <= j < |rows| ==> !Outranks(rows[j], rows[i]))
    && (forall j :: 0 <= j < i ==> Outranks(rows[i], rows[j]))
  }

  lemma FirstBestTops(rows: seq<Row>, i: nat)
    ensures FirstBest(rows, SortKey, i) <==> Tops(rows, i)
  {
    if i < |rows| {
      forall j | 0 <= j < |rows|
        ensures Outranks(rows[j], rows[i]) <==> Less(SortKey(rows[i]), SortKey(rows[j]))
        ensures Outranks(rows[i], rows[j]) <==> Less(SortKey(rows[j]), SortKey(rows[i]))
      {
        OutranksIsLess(rows[j], rows[i]);
        OutranksIsLess(rows[i], rows[j]);
      }
    }
  }

  /** rows[i] is the first row with the button. */
  predicate FirstWith(rows: seq<Row>, button: int, i: nat) {
    i < |rows| && rows[i].button == button && forall j :: 0 <= j < i ==> rows[j].button != button
  }

  function BestIndex(rows: seq<Row>, key: Row -> Key): (b: nat)
    requires rows != []
    ensures b < |rows|
  {
    var n := |rows| - 1;
    if n == 0 then 0
    else
      var b := BestIndex(rows[..n], key);
      if Less(key(rows[b]), key(rows[n])) then n else b
  }

  lemma {:induction false} BestIndexIsFirstBest(rows: seq<Row>, key: Row -> Key)
    requires rows != []
    ensures FirstBest(rows, key, BestIndex(rows, key))
  {
    var n := |rows| - 1;
    if n > 0 {
      BestIndexIsFirstBest(rows[..n], key);
      var b := BestIndex(rows[..n], key);
      assert rows[..n][b] == rows[b];
      forall j | 0 <= j < n
        ensures !Less(key(rows[b]), key(rows[j])) && (j < b ==> Less(key(rows[j]), key(rows[b])))
      {
        assert rows[..n][j] == rows[j];
      }
    }
  }

  /** With a key that tells rows apart, the best row does not depend on their order. */
  lemma BestDoesNotDependOnOrder(rows: seq<Row>, other: seq<Row>, key: Row -> Key)
    requires rows != [] && other != [] && forall r :: r in rows <==> r in other
    requires forall a, b :: a in rows && b in rows && key(a) == key(b) ==> a == b
    ensures rows[BestIndex(rows, key)] == other[BestIndex(other, key)]
  {
    BestIndexIsFirstBest(rows, key);
    BestIndexIsFirstBest(other, key);
    var a, b := rows[BestIndex(rows, key)], other[BestIndex(other, key)];
    assert a in other && b in rows;
    var i :| 0 <= i < |rows| && rows[i] == b;
    var j :| 0 <= j < |other| && other[j] == a;
    assert !Less(key(a), key(b)) && !Less(key(b), key(a));
  }

  /** The first row with the wanted button, or |rows|. */
  function Wanted(rows: seq<Row>, button: int): (i: nat)
    ensures i <= |rows|
    ensures i < |rows| ==> rows[i].button == button
    ensures forall j :: 0 <= j < i ==> rows[j].button != button
  {
    if rows == [] || rows[0].button == button then 0 else 1 + Wanted(rows[1..], button)
  }

  function Choice(rows: seq<Row>, preferred: Option<int>, sel: Selection): Option<Row> {
    if rows == [] then None
    else if sel == Viewer && preferred.Some? && Wanted(rows, preferred.value) < |rows| then
      Some(rows[Wanted(rows, preferred.value)])
    else Some(rows[BestIndex(rows, SortKey)])
  }

  /** The loop over the rows, for any key. */
  method FindBest(rows: seq<Row>, key: Row -> Key) returns (best: Row)
    requires rows != []
    ensures best == rows[BestIndex(rows, key)]
    ensures exists i: nat :: FirstBest(rows, key, i) && best == rows[i]
  {
    best := rows[0];
    var bestKey := key(best);
    for i := 1 to |rows|
      invariant bestKey == key(best)
      invariant best == rows[..i][BestIndex(rows[..i], key)]
    {
      var k := key(rows[i]);
      assert rows[..i + 1][..i] == rows[..i];
      if Less(bestKey, k) {
        best, bestKey := rows[i], k;
      }
    }
    assert rows[..|rows|] == rows;
    BestIndexIsFirstBest(rows, key);
  }

  /** r is the row to show: the wanted one if the viewer has it, else the one on top; none without rows. */
  ghost predicate Shows(rows: seq<Row>, preferred: Option<int>, sel: Selection, r: Option<Row>) {
    if rows == [] then r == None
    else if sel == Viewer && preferred.Some? && exists i: nat :: FirstWith(rows, preferred.value, i) then
      exists i: nat :: FirstWith(rows, preferred.value, i) && r == Some(rows[i])
    else exists i: nat :: Tops(rows, i) && r == Some(rows[i])
  }

  lemma ChoiceShows(rows: seq<Row>, preferred: Option<int>, sel: Selection)
    ensures Shows(rows, preferred, sel, Choice(rows, preferred, sel))
  {
    if rows != [] {
      BestIndexIsFirstBest(rows, SortKey);
      FirstBestTops(rows, BestIndex(rows, SortKey));
      if preferred.Some? {
        assert Wanted(rows, preferred.value) < |rows| ==>
            FirstWith(rows, preferred.value, Wanted(rows, preferred.value));
      }
    }
  }

  /** The loop over the rows for the wanted button. */
  method FindWanted(rows: seq<Row>, button: int) returns (r: Option<Row>)
    ensures r == if Wanted(rows, button) < |rows| then Some(rows[Wanted(rows, button)]) else None
  {
    for i := 0 to |rows|
      invariant forall j :: 0 <= j < i ==> rows[j].button != button
    {
      if rows[i].button == button {
        return Some(rows[i]);
      }
    }
    return None;
  }

  /** The wanted row if the viewer has it, else the first maximal one. */
  method Resolve(rows: seq<Row>, preferred: Option<int>, sel: Selection) returns (r: Option<Row>)
    ensures r == Choice(rows, preferred, sel)
    ensures sel == Auto && rows != [] ==> r.Some? && exists i: nat :: FirstBest(rows, SortKey, i) && r.value == rows[i]
    ensures Shows(rows, preferred, sel, r)
  {
    ChoiceShows(rows, preferred, sel);
    if |rows| == 0 {
      return None;
    }
    if sel == Viewer && preferred.Some? {
      var wanted := FindWanted(rows, preferred.value);
      if wanted.Some? {
        return wanted;
      }
    }
    var best := FindBest(rows, SortKey);
    return Some(best);
  }

  // ----- Properties -----

  predicate RealButtons(rows: seq<Row>) {
    && (forall i :: 0 <= i < |rows| ==> rows[i].button in {4, 5, 6, 8})
    && (forall i, j :: 0 <= i < j < |rows| ==> rows[i].button != rows[j].button)
  }

  /** With one row per real button, what is shown does not depend on the order of the rows. */
  lemma OrderDoesNotMatter(rows: seq<Row>, other: seq<Row>, preferred: Option<int>, sel: Selection)
    requires RealButtons(rows) && multiset(rows) == multiset(other)
    ensures Choice(rows, preferred, sel) == Choice(other, preferred, sel)
  {
    assert |rows| == |multiset(rows)| == |multiset(other)| == |other|;
    forall r ensures r in rows <==> r in other {
      assert r in rows <==> r in multiset(rows);
      assert r in other <==> r in multiset(other);
    }
    if rows != [] {
      if sel == Viewer && preferred.Some? {
        SameWanted(rows, other, preferred.value);
      }
      forall a, b | a in rows && b in rows && SortKey(a) == SortKey(b) ensures a == b {
        KeyTellsButton(a, b);
      }
      BestDoesNotDependOnOrder(rows, other, SortKey);
    }
  }

  lemma KeyTellsButton(a: Row, b: Row)
    requires a.button in {4, 5, 6, 8} && b.button in {4, 5, 6, 8} && SortKey(a) == SortKey(b)
    ensures a.button == b.button
  {
  }

  lemma SameWanted(rows: seq<Row>, other: seq<Row>, button: int)
    requires RealButtons(rows) && forall r :: r in rows <==> r in other
    ensures Wanted(rows, button) < |rows| <==> Wanted(other, button) < |other|
    ensures Wanted(rows, button) < |rows| ==> rows[Wanted(rows, button)] == other[Wanted(other, button)]
  {
    var i, j := Wanted(rows, button), Wanted(other, button);
    if i < |rows| {
      assert rows[i] in other;
      var k :| 0 <= k < |other| && other[k] == rows[i];
    }
    if j < |other| {
      assert other[j] in rows;
      var k :| 0 <= k < |rows| && rows[k] == other[j];
    }
  }

  /** A badge is at theory exactly on the raw conversion, and its power never exceeds theory. */
  lemma TheoryIsRaw(r: Row)
    ensures BuildBadge(r).isTheory <==> IsTheoryConversion(r.conversion)
    ensures BuildBadge(r).power.Some? <==> r.conversion.Some?
    ensures BuildBadge(r).power.Some? ==> BuildBadge(r).power.value <= THEORY_POWER
  {
  }

  // ----- What parsing undoes -----

  /** A rank text that parsing leaves alone. */
  predicate PlainRank(r: string) {
    && r != "" && !IsSpace(r[0]) && !IsSpace(r[|r| - 1]) && !IsDigit(r[0])
    && !IsRoman(Upper(r[LastWord(r)..]))
  }

  predicate AllBlank(s: string) {
    forall i :: 0 <= i < |s| ==> IsBlank(s[i])
  }

  /** Nothing, or digits, a B and whitespace. */
  ghost predicate ButtonPrefix(pre: string, d: nat) {
    pre == "" || (0 < d < |pre| - 1 && (forall i :: 0 <= i < d ==> IsDigit(pre[i])) && pre[d] == 'B'
        && AllBlank(pre[d + 1..]))
  }

  lemma StripsButton(pre: string, d: nat, x: string)
    requires ButtonPrefix(pre, d) && x != "" && !IsBlank(x[0]) && !IsDigit(x[0])
    ensures StripButton(pre + x) == x
  {
    if pre == "" {
      SpanIs(x, IsDigit, 0);
      assert pre + x == x;
    } else {
      var s := pre + x;
      SpanIs(s, IsDigit, d);
      assert s[d + 1..] == pre[d + 1..] + x;
      SpanIs(s[d + 1..], IsBlank, |pre| - d - 1);
    }
  }

  lemma TrimsNothing(r: string)
    requires r != "" && !IsSpace(r[0]) && !IsSpace(r[|r| - 1])
    ensures TrimSpace(r) == r
  {
  }

  lemma RomanIsInk(lv: string)
    requires IsRoman(Upper(lv))
    ensures forall i :: 0 <= i < |lv| ==> IsInk(lv[i])
  {
    forall i | 0 <= i < |lv| ensures IsInk(lv[i]) {
      assert Upper(lv)[i] in {'I', 'V', 'X'};
    }
  }

  lemma LastWordIs(s: string, x: string, ws: string, lv: string)
    requires s == x + ws + lv && x != "" && IsInk(x[|x| - 1]) && ws != "" && AllBlank(ws)
    requires forall i :: 0 <= i < |lv| ==> IsInk(lv[i])
    ensures LastWord(s) == |x + ws| && s[LastWord(s)..] == lv && SuffixFrom(s[..LastWord(s)], IsBlank) == |x|
  {
    SuffixFromIs(s, IsInk, |x + ws|);
    assert s[..|x + ws|] == x + ws;
    SuffixFromIs(x + ws, IsBlank, |x|);
  }

  lemma LevelAtEnd(x: string, ws: string, lv: string)
    requires x != "" && !IsBlank(x[|x| - 1]) && ws != "" && AllBlank(ws) && IsRoman(Upper(lv))
    ensures HasLevel(x + ws + lv) && StripLevel(x + ws + lv) == x && ExtractLevel(x + ws + lv) == Upper(lv)
  {
    RomanIsInk(lv);
    LastWordIs(x + ws + lv, x, ws, lv);
  }

  lemma NotALevel(s: string, word: string)
    requires s[LastWord(s)..] == word && !IsRoman(Upper(word))
    ensures !HasLevel(s)
  {
  }

  lemma NoLevelAtEnd(pre: string, d: nat, r: string)
    requires ButtonPrefix(pre, d) && PlainRank(r)
    ensures !HasLevel(pre + r) && !HasLevel(r)
  {
    var n := LastWord(r);
    SuffixFromIs(pre + r, IsInk, |pre| + n);
    assert (pre + r)[|pre| + n..] == r[n..];
    NotALevel(pre + r, r[n..]);
    NotALevel(r, r[n..]);
  }

  lemma ParsesWithoutLevel(pre: string, d: nat, rank: string)
    requires ButtonPrefix(pre, d) && PlainRank(rank)
    ensures ParseRankName(pre + rank) == rank && ExtractLevel(pre + rank) == ""
  {
    StripsButton(pre, d, rank);
    NoLevelAtEnd(pre, d, rank);
    TrimsNothing(rank);
  }

  lemma ParsesWithLevel(pre: string, d: nat, rank: string, ws: string, lv: string)
    requires ButtonPrefix(pre, d) && PlainRank(rank) && ws != "" && AllBlank(ws) && IsRoman(Upper(lv))
    ensures ParseRankName(pre + rank + ws + lv) == rank && ExtractLevel(pre + rank + ws + lv) == Upper(lv)
  {
    assert pre + rank + ws + lv == pre + (rank + ws + lv);
    StripsButton(pre, d, rank + ws + lv);
    LevelAtEnd(rank, ws, lv);
    TrimsNothing(rank);
    LevelAtEnd(pre + rank, ws, lv);
  }

  /** A class text made of an optional button, a rank and an optional level parses back into the rank and the level. */
  lemma ParsingUndoesWriting(pre: string, d: nat, rank: string, ws: string, lv: string)
    requires ButtonPrefix(pre, d) && PlainRank(rank)
    requires (ws == "" && lv == "") || (ws != "" && AllBlank(ws) && IsRoman(Upper(lv)))
    ensures ParseRankName(pre + rank + ws + lv) == rank
    ensures ExtractLevel(pre + rank + ws + lv) == Upper(lv)
  {
    if lv == "" {
      assert pre + rank + ws + lv == pre + rank;
      ParsesWithoutLevel(pre, d, rank);
    } else {
      ParsesWithLevel(pre, d, rank, ws, lv);
    }
  }

  /** A rank of the table begins and ends in a capital letter, and does not end like a roman numeral. */
  lemma TableRankEnds(i: nat)
    requires i < |RANK_ORDER|
    ensures var r := RANK_ORDER[i];
            && |r| >= 6 && 'A' <= r[0] <= 'Z' && 'A' <= r[|r| - 1] <= 'Z' && 'A' <= r[|r| - 2] <= 'Z'
            && (r[|r| - 1] !in {'I', 'V', 'X'} || r[|r| - 2] !in {'I', 'V', 'X'})
  {
    var r := RANK_ORDER[i];
    assert |r| >= 6 && 'A' <= r[0] <= 'Z';
  }

  /** Every rank of the table is such a text. */
  lemma TableRanksArePlain(i: nat)
    requires i < |RANK_ORDER|
    ensures PlainRank(RANK_ORDER[i])
  {
    TableRankEnds(i);
    NotRoman(RANK_ORDER[i]);
  }

  lemma TableRanksDiffer(i: nat)
    requires i < |RANK_ORDER|
    ensures RankIndex(RANK_ORDER[i]) == i
  {
    assert forall j :: 0 <= j < i ==> |RANK_ORDER[j]| != |RANK_ORDER[i]| || RANK_ORDER[j][0] != RANK_ORDER[i][0];
  }

  /** How a class text was put together: an optional button, a rank, an optional level. */
  datatype Writing = Writing(pre: string, d: nat, rank: nat, ws: string, lv: string)

  ghost predicate Writes(w: Writing, class_: string) {
    && w.rank < |RANK_ORDER| && ButtonPrefix(w.pre, w.d)
    && ((w.ws == "" && w.lv == "") || (w.ws != "" && AllBlank(w.ws) && IsRoman(Upper(w.lv))))
    && class_ == w.pre + RANK_ORDER[w.rank] + w.ws + w.lv
  }

  lemma ReadsWriting(w: Writing, class_: string)
    requires Writes(w, class_)
    ensures ParseRankName(class_) == RANK_ORDER[w.rank] && ExtractLevel(class_) == Upper(w.lv)
    ensures RankIndex(RANK_ORDER[w.rank]) == w.rank && (RANK_ORDER[w.rank] == LORD <==> w.rank == 0)
  {
    TableRanksArePlain(w.rank);
    ParsingUndoesWriting(w.pre, w.d, RANK_ORDER[w.rank], w.ws, w.lv);
    TableRanksDiffer(w.rank);
    TableRanksDiffer(0);
  }

  /** The key of a text of the table's ranks. */
  lemma KeyOfWriting(w: Writing, a: Row)
    requires Writes(w, a.class_)
    ensures SortKey(a) ==
            Key(13 - w.rank,
                if w.rank == 0 && IsTheoryConversion(a.conversion) then 5 else LevelValue(Upper(w.lv)),
                ButtonPreference(a.button))
  {
    ReadsWriting(w, a.class_);
  }

  /** The place of a row as it was written: its rank, then theory or its level, then its button. */
  function WrittenPlace(w: Writing, a: Row): Place {
    Place(w.rank,
          if w.rank == 0 && a.conversion.Some? && a.conversion.value >= 9999.9847 then 0 else LevelPlace(Upper(w.lv)),
          ButtonPlace(a.button))
  }

  lemma WrittenOutranks(v: Writing, a: Row, w: Writing, b: Row)
    requires Writes(v, a.class_) && Writes(w, b.class_)
    ensures Outranks(a, b) <==> Precedes(WrittenPlace(v, a), WrittenPlace(w, b))
  {
    ReadsWriting(v, a.class_);
    ReadsWriting(w, b.class_);
  }

  /**
   * The documented order decides what is shown, for texts of the table's ranks: a row is never shown while
   * there is one of a better rank, or of the same rank and a better level (theory, I, II, III, IV, none), or
   * of the same level and a better button (8, 5, 6, 4).
   */
  lemma DocumentedOrder(rows: seq<Row>, preferred: Option<int>, v: Writing, a: Row, w: Writing, b: Row)
    requires a in rows && b in rows && Writes(v, a.class_) && Writes(w, b.class_)
    requires Precedes(WrittenPlace(v, a), WrittenPlace(w, b))
    ensures Choice(rows, preferred, Auto) != Some(b)
  {
    WrittenOutranks(v, a, w, b);
    ChoiceShows(rows, preferred, Auto);
    var i: nat :| Tops(rows, i) && Choice(rows, preferred, Auto) == Some(rows[i]);
    var j :| 0 <= j < |rows| && rows[j] == a;
    assert !Outranks(rows[j], rows[i]);
  }

  predicate AllSpace(s: string) {
    forall i :: 0 <= i < |s| ==> IsSpace(s[i])
  }

  lemma SpaceIsNoButton(s: string)
    requires AllSpace(s)
    ensures StripButton(s) == s
  {
    SpanIs(s, IsDigit, 0);
  }

  lemma SpaceIsNoRoman(word: string)
    requires AllSpace(word)
    ensures !IsRoman(Upper(word))
  {
    assert word != "" ==> Upper(word)[0] == word[0];
  }

  lemma SpaceIsNoLevel(s: string)
    requires AllSpace(s)
    ensures StripLevel(s) == s
  {
    SpaceIsNoRoman(s[LastWord(s)..]);
  }

  lemma SpaceIsTrimmed(s: string)
    requires AllSpace(s)
    ensures TrimSpace(s) == ""
  {
    SpanIs(s, IsSpace, |s|);
  }

  /** A text without a rank counts as the lowest rank. */
  lemma NoRankIsBeginner(class_: string)
    requires AllSpace(class_)
    ensures ParseRankName(class_) == "BEGINNER" == RANK_ORDER[|RANK_ORDER| - 1]
  {
    SpaceIsNoButton(class_);
    SpaceIsNoLevel(class_);
    SpaceIsTrimmed(class_);
  }

  /** The badge of a text of the table's ranks, field by field. */
  lemma BadgeOfWriting(w: Writing, r: Row)
    requires Writes(w, r.class_)
    ensures var badge, level := BuildBadge(r), Upper(w.lv);
            var short, floors := SHORT_NAMES[w.rank], RANK_THRESHOLDS[w.rank];
            && badge.button == r.button && badge.rank == short
            && badge.class_ == (if w.lv == "" then short else short + " " + level)
            && badge.threshold == (if "default" in floors then Some(floors["default"])
                                   else if level in floors then Some(floors[level])
                                   else None)
            && (badge.isTheory <==> r.conversion.Some? && r.conversion.value >= 9999.9847)
            && (badge.power.Some? <==> r.conversion.Some?)
            && (badge.isTheory ==> badge.power == Some(10000))
            && (r.conversion.Some? && !badge.isTheory ==>
                  badge.power.value as real <= r.conversion.value < badge.power.value as real + 1.0)
  {
    ReadsWriting(w, r.class_);
  }

  /** A rank that the table does not have keeps its own name, and has no floor. */
  lemma UnknownRanksKeepTheirName(r: Row)
    requires ParseRankName(r.class_) !in RANK_ORDER
    ensures BuildBadge(r).rank == ParseRankName(r.class_) && BuildBadge(r).threshold == None
    ensures BuildBadge(r).button == r.button && BuildBadge(r).rank <= BuildBadge(r).class_
  {
  }

  lemma NotRoman(r: string)
    requires |r| >= 2 && !IsBlank(r[|r| - 1])
    requires UpperChar(r[|r| - 1]) !in {'I', 'V', 'X'}
          || (!IsBlank(r[|r| - 2]) && UpperChar(r[|r| - 2]) !in {'I', 'V', 'X'})
    ensures !IsRoman(Upper(r[LastWord(r)..]))
  {
  }

  // ----- The floors follow the ranks -----

  const LOWEST: seq<int> := [9980, 9900, 9700, 9400, 9000, 8600, 7800, 7000, 6200, 5200, 4000, 2400, 500, 0]
  const HIGHEST: seq<int> := [9980, 9970, 9850, 9650, 9300, 8900, 8400, 7600, 6800, 6000, 4900, 3600, 2000, 0]

  lemma FloorsInBand(i: nat, level: string)
    requires i < |RANK_THRESHOLDS| && level in RANK_THRESHOLDS[i]
    ensures i < 14 && LOWEST[i] <= RANK_THRESHOLDS[i][level] <= HIGHEST[i]
  {
  }

  lemma {:induction false} BandsDescend(i: nat, j: nat)
    requires i < j < 14
    ensures HIGHEST[j] < LOWEST[i]
  {
  }

  /** A better rank has a higher floor, whatever the levels. */
  lemma FloorsFollowRanks(a: Row, b: Row)
    requires Threshold(ParseRankName(a.class_), ExtractLevel(a.class_)).Some?
    requires Threshold(ParseRankName(b.class_), ExtractLevel(b.class_)).Some?
    requires SortKey(b).rank < SortKey(a).rank
    ensures BuildBadge(a).threshold.value > BuildBadge(b).threshold.value
  {
    FloorsFollowNames(ParseRankName(a.class_), ExtractLevel(a.class_), ParseRankName(b.class_), ExtractLevel(b.class_));
  }

  lemma FloorsFollowNames(r: string, l: string, q: string, m: string)
    requires Threshold(r, l).Some? && Threshold(q, m).Some? && RankIndex(r) < RankIndex(q)
    ensures Threshold(r, l).value > Threshold(q, m).value
  {
    var i, j := RankIndex(r), RankIndex(q);
    FloorsInBand(i, if "default" in RANK_THRESHOLDS[i] then "default" else l);
    FloorsInBand(j, if "default" in RANK_THRESHOLDS[j] then "default" else m);
    BandsDescend(i, j);
  }
}

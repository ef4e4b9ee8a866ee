/** What a record and its resources cost, from the entries of price lists and cost indicators. */
module RecordPrices {
  import opened Text
  import opened Wrappers
  import opened RecordLookup

  // --- price lists ----------------------------------------------------------

  /** A part of a price list that has a colon, cut at the first one, or a part that has none. */
  datatype Entry = Entry(district: string, value: string) | Other(text: string)

  function EntryText(e: Entry): string {
    match e
    case Entry(district, value) => district + ":" + value
    case Other(text) => text
  }

  predicate IsEntry(e: Entry) {
    '/' !in EntryText(e) && ':' !in if e.Entry? then e.district else e.text
  }

  function Fields(entries: seq<Entry>): (fields: seq<string>)
    ensures |fields| == |entries|
  {
    seq(|entries|, i requires 0 <= i < |entries| => EntryText(entries[i]))
  }

  /** The text is these entries joined by '/'. */
  predicate IsList(text: string, entries: seq<Entry>) {
    entries != [] && text == Join(Fields(entries), '/') && forall i :: 0 <= i < |entries| ==> IsEntry(entries[i])
  }

  /** The entry names the district, in whatever spelling, and has a value. */
  predicate IsFor(e: Entry, key: string) {
    e.Entry? && DistrictKey(e.district) == key && Trim(e.value) != ""
  }

  /** The value of the first entry for the district, or nothing. */
  ghost predicate Quotes(entries: seq<Entry>, district: string, value: string) {
    var key := DistrictKey(district);
    if key != "" && exists i :: 0 <= i < |entries| && IsFor(entries[i], key)
    then exists i :: 0 <= i < |entries| && IsFor(entries[i], key) && (forall j :: 0 <= j < i ==> !IsFor(entries[j], key))
                     && value == Trim(entries[i].value)
    else value == ""
  }

  lemma TrimEntry(d: string, v: string)
    ensures Trim(d + ":" + v) == TrimLeft(d) + ":" + TrimRight(v)
  {
    TrimAround(d, ":", v);
  }

  lemma DistrictTrims(district: string)
    ensures DistrictKey(TrimLeft(district)) == DistrictKey(district)
    ensures TrimLeft(district) == "" ==> DistrictKey(district) == ""
  {
    hide TrimLeft;
    hide TrimRight;
    hide Trim;
    hide RegionCode;
    hide Zone;
    TrimTrimmedLeft(district);
    if TrimLeft(district) == "" { NoRegion(); }
  }

  lemma NoRegion()
    ensures Trim("") == "" && RegionCode("") == ""
  {
  }

  lemma EntryReads(e: Entry, key: string)
    requires IsEntry(e) && key != ""
    ensures EntryValue(EntryText(e), key) == if e.Entry? && DistrictKey(e.district) == key then Trim(e.value) else ""
  {
    hide DistrictKey;
    if e.Other? {
      if ':' in Trim(e.text) { TrimChars(e.text, ':'); }
    } else {
      var d, v := TrimLeft(e.district), TrimRight(e.value);
      var part := d + ":" + v;
      TrimEntry(e.district, e.value);
      if ':' in d { TrimLeftChars(e.district, ':'); }
      IndexOfCharFirst(d, ':', v);
      assert part[..|d|] == d && part[|d| + 1..] == v;
      DistrictTrims(e.district);
      TrimTrimmedRight(e.value);
    }
  }

  lemma {:induction false} FirstReads(entries: seq<Entry>, district: string)
    requires DistrictKey(district) != "" && forall i :: 0 <= i < |entries| ==> IsEntry(entries[i])
    ensures Quotes(entries, district, FirstValue(Fields(entries), DistrictKey(district)))
  {
    hide DistrictKey;
    hide EntryValue;
    hide IsEntry;
    var key := DistrictKey(district);
    if entries != [] {
      var rest := entries[1..];
      EntryReads(entries[0], key);
      FirstReads(rest, district);
      assert Fields(entries)[1..] == Fields(rest);
      if !IsFor(entries[0], key) {
        QuotesRest(entries, district, FirstValue(Fields(rest), key));
      }
    }
  }

  lemma QuotesRest(entries: seq<Entry>, district: string, value: string)
    requires entries != [] && !IsFor(entries[0], DistrictKey(district)) && Quotes(entries[1..], district, value)
    ensures Quotes(entries, district, value)
  {
    hide DistrictKey;
    var key, rest := DistrictKey(district), entries[1..];
    assert forall i :: 0 < i < |entries| ==> entries[i] == rest[i - 1];
    if key != "" && exists i :: 0 <= i < |rest| && IsFor(rest[i], key) {
      var i :| 0 <= i < |rest| && IsFor(rest[i], key) && (forall j :: 0 <= j < i ==> !IsFor(rest[j], key))
               && value == Trim(rest[i].value);
      assert IsFor(entries[i + 1], key);
    }
  }

  // --- white space around a list ----------------------------------------------

  lemma {:induction false} FirstSame(a: seq<string>, b: seq<string>, key: string)
    requires |a| == |b| && forall i :: 0 <= i < |a| ==> Trim(a[i]) == Trim(b[i])
    ensures FirstValue(a, key) == FirstValue(b, key)
  {
    hide Trim;
    hide DistrictKey;
    if a != [] { FirstSame(a[1..], b[1..], key); }
  }

  lemma TrimJoinLeft(fields: seq<string>, c: char)
    requires |fields| >= 1 && !IsSpace(c)
    ensures TrimLeft(Join(fields, c)) == Join(fields[0 := TrimLeft(fields[0])], c)
  {
    var f := fields[0];
    var left := fields[0 := TrimLeft(f)];
    if |fields| > 1 {
      assert left[1..] == fields[1..];
      var rest := [c] + Join(fields[1..], c);
      assert Join(fields, c) == f + rest && Join(left, c) == TrimLeft(f) + rest;
      TrimLeftJoin(f, rest);
    }
  }

  lemma TrimJoinRight(fields: seq<string>, c: char)
    requires |fields| >= 1 && !IsSpace(c)
    ensures var n := |fields| - 1;
      TrimRight(Join(fields, c)) == Join(fields[n := TrimRight(fields[n])], c)
  {
    hide Join;
    hide TrimRight;
    var f := fields[|fields| - 1];
    var front := JoinLast(fields, c, TrimRight(f));
    if front == "" {
      assert front + f == f && front + TrimRight(f) == TrimRight(f);
    } else {
      TrimRightJoin(front, f);
    }
  }

  lemma TrimJoin(fields: seq<string>, c: char) returns (trimmed: seq<string>)
    requires |fields| >= 1 && !IsSpace(c) && forall f :: f in fields ==> c !in f
    ensures |trimmed| == |fields| && Trim(Join(fields, c)) == Join(trimmed, c)
    ensures forall i :: 0 <= i < |fields| ==> Trim(trimmed[i]) == Trim(fields[i]) && c !in trimmed[i]
  {
    hide Join;
    hide TrimLeft;
    hide TrimRight;
    var n := |fields| - 1;
    var left := fields[0 := TrimLeft(fields[0])];
    TrimJoinLeft(fields, c);
    TrimJoinRight(left, c);
    trimmed := left[n := TrimRight(left[n])];
    assert Trim(Join(fields, c)) == TrimRight(TrimLeft(Join(fields, c)));
    TrimTrimmedLeft(fields[0]);
    TrimTrimmedRight(left[n]);
    forall i | 0 <= i < |fields| ensures c !in trimmed[i] {
      assert fields[i] in fields;
      if c in left[i] { TrimLeftChars(fields[i], c); }
      TrimRightTrims(left[i]);
    }
    forall i | 0 <= i < |fields| ensures Trim(trimmed[i]) == Trim(fields[i]) { }
  }

  /** A price list gives the value of its first entry for the district. */
  lemma PicksFirst(text: string, entries: seq<Entry>, district: string)
    requires IsList(text, entries)
    ensures Quotes(entries, district, PickValue(text, district))
  {
    hide DistrictKey;
    hide FirstValue;
    hide Trim;
    hide Join;
    hide Split;
    var key, fields := DistrictKey(district), Fields(entries);
    forall f | f in fields ensures '/' !in f { }
    if key != "" {
      var trimmed := TrimJoin(fields, '/');
      forall f | f in trimmed ensures '/' !in f { }
      SplitJoin(trimmed, '/');
      FirstReads(entries, district);
      FirstSame(trimmed, fields, key);
      if Trim(text) == "" { NoFields(trimmed, key); }
    }
  }

  /** A blank list has one part, which is blank. */
  lemma NoFields(fields: seq<string>, key: string)
    requires |fields| >= 1 && Join(fields, '/') == ""
    ensures FirstValue(fields, key) == ""
  {
    assert |fields| == 1 && fields[0] == "";
    assert Trim("") == "" && fields[1..] == [];
  }

  /** Every text is such a list. */
  lemma EveryTextIsList(text: string) returns (entries: seq<Entry>)
    ensures IsList(text, entries)
  {
    hide Split;
    hide Join;
    hide EntryOf;
    var fields := Split(text, '/');
    JoinSplit(text, '/');
    entries := seq(|fields|, i requires 0 <= i < |fields| => EntryOf(fields[i]));
    forall i | 0 <= i < |fields| ensures EntryText(entries[i]) == fields[i] && IsEntry(entries[i]) {
      assert fields[i] in fields;
      EntryOfField(fields[i]);
    }
    assert Fields(entries) == fields;
  }

  function EntryOf(field: string): Entry {
    var i := IndexOfChar(field, ':');
    if i < |field| then Entry(field[..i], field[i + 1..]) else Other(field)
  }

  lemma EntryOfField(field: string)
    requires '/' !in field
    ensures EntryText(EntryOf(field)) == field && IsEntry(EntryOf(field))
  {
  }

  lemma QuotesOne(entries: seq<Entry>, district: string, v: string, w: string)
    requires Quotes(entries, district, v) && Quotes(entries, district, w)
    ensures v == w
  {
    hide IsFor;
  }

  // --- cost indicators --------------------------------------------------------

  predicate NoDouble(s: string) {
    forall i :: 0 <= i < |s| - 1 ==> s[i] != '#' || s[i + 1] != '#'
  }

  /** An even number of number signs at the end: the next two are a separator of their own. */
  predicate EvenEnd(s: string) {
    s == "" || s[|s| - 1] != '#' || (|s| >= 2 && s[|s| - 2] == '#' && EvenEnd(s[..|s| - 2]))
  }

  predicate DoubleAt(s: string, i: nat) {
    i + 2 <= |s| && s[i] == '#' && s[i + 1] == '#' && EvenEnd(s[..i]) && NoDouble(s[i + 2..])
  }

  predicate LastAt(s: string, c: char, i: nat) {
    i < |s| && s[i] == c && c !in s[i + 1..]
  }

  ghost predicate AfterColon(s: string, base: string) {
    if ':' in s then exists i: nat :: LastAt(s, ':', i) && base == Trim(s[i + 1..]) else base == Trim(s)
  }

  /**
    The base price: what stands behind the last "##"; or else behind the last '#', and there behind the
    last colon; or else behind the last colon.
   */
  ghost predicate HasBase(cost: string, base: string) {
    if !NoDouble(cost) then exists i: nat :: DoubleAt(cost, i) && base == Trim(cost[i + 2..])
    else if '#' in cost then exists i: nat :: LastAt(cost, '#', i) && AfterColon(cost[i + 1..], base)
    else AfterColon(cost, base)
  }

  lemma {:induction false} EvenEndFront(front: string, s: string)
    requires EvenEnd(s) && (front == "##" || (|front| == 1 && (front != "#" || (s != "" && s[0] != '#'))))
    ensures EvenEnd(front + s)
  {
    var t := front + s;
    if s != "" && s[|s| - 1] == '#' {
      EvenEndFront(front, s[..|s| - 2]);
      assert t[..|t| - 2] == front + s[..|s| - 2];
    }
  }

  lemma DoubleLater(s: string, k: nat, i: nat)
    requires 1 <= k <= 2 && k <= |s| && DoubleAt(s[k..], i)
    requires if k == 2 then s[0] == '#' && s[1] == '#' else s[0] != '#' || (|s| > 1 && s[1] != '#')
    ensures DoubleAt(s, i + k) && s[k..][i + 2..] == s[i + k + 2..]
  {
    var rest := s[k..];
    EvenEndFront(s[..k], rest[..i]);
    assert s[..i + k] == s[..k] + rest[..i];
  }

  lemma {:induction false} LastDouble(s: string)
    ensures NoDouble(s) ==> LastPart(s, "##").None?
    ensures !NoDouble(s) ==> exists i :: DoubleAt(s, i) && LastPart(s, "##") == Some(s[i + 2..])
    decreases |s|
  {
    hide EvenEnd;
    if |s| >= 2 {
      var k := if StartsWith(s, "##") then 2 else 1;
      var rest := s[k..];
      LastDouble(rest);
      assert forall i :: 0 <= i < |rest| ==> rest[i] == s[i + k];
      if k == 1 { assert s[0] != '#' || s[1] != '#' by { NotDouble(s); } }
      if !NoDouble(rest) {
        var i: nat :| DoubleAt(rest, i) && LastPart(rest, "##") == Some(rest[i + 2..]);
        DoubleLater(s, k, i);
      } else if k == 2 {
        assert EvenEnd(s[..0]) by { NothingEven(); }
        assert DoubleAt(s, 0);
      }
    }
  }

  lemma NothingEven()
    ensures EvenEnd("")
  {
  }

  lemma NotDouble(s: string)
    requires |s| >= 2 && !StartsWith(s, "##")
    ensures s[0] != '#' || s[1] != '#'
  {
    assert s[..2] == [s[0], s[1]];
  }

  lemma {:induction false} LastSingle(s: string)
    ensures '#' !in s ==> LastPart(s, "#").None?
    ensures '#' in s ==> exists i :: LastAt(s, '#', i) && LastPart(s, "#") == Some(s[i + 1..])
  {
    if s != "" {
      var rest := s[1..];
      LastSingle(rest);
      assert StartsWith(s, "#") <==> s[0] == '#';
      if '#' in rest {
        var i: nat :| LastAt(rest, '#', i) && LastPart(rest, "#") == Some(rest[i + 1..]);
        assert rest[i + 1..] == s[i + 2..];
        assert LastAt(s, '#', i + 1);
      } else if s[0] == '#' {
        assert LastAt(s, '#', 0);
      }
    }
  }

  lemma LastIndexIs(s: string, c: char)
    ensures c in s ==> LastAt(s, c, LastIndexOf(s, c))
    ensures c !in s ==> LastIndexOf(s, c) == |s|
  {
    var i := LastIndexOf(s, c);
    assert forall j :: i < j < |s| ==> s[i + 1..][j - i - 1] == s[j];
  }

  lemma TrimColon(x: string, y: string)
    requires ':' !in y
    ensures Trim(x + ":" + y) == TrimLeft(x) + ":" + TrimRight(y) && AfterLastColon(Trim(x + ":" + y)) == Trim(y)
  {
    var a, b := TrimLeft(x), TrimRight(y);
    TrimEntry(x, y);
    TrimRightTrims(y);
    LastIndexExact(a, ':', b);
    assert a + ":" + b == a + [':'] + b;
    assert (a + ":" + b)[|a| + 1..] == b;
    TrimTrimmedRight(y);
  }

  /** Cutting behind the last colon, of a trimmed or untrimmed text. */
  lemma ColonCut(s: string)
    ensures AfterColon(s, AfterLastColon(Trim(s)))
  {
    hide TrimLeft;
    hide TrimRight;
    if ':' in s {
      LastIndexIs(s, ':');
      var i := LastIndexOf(s, ':');
      assert s == s[..i] + ":" + s[i + 1..];
      TrimColon(s[..i], s[i + 1..]);
    } else {
      if ':' in Trim(s) { TrimChars(s, ':'); }
      LastIndexIs(Trim(s), ':');
    }
  }

  // --- the base price -----------------------------------------------------------

  lemma BaseIs(cost: string)
    ensures HasBase(Trim(cost), BasePrice(cost))
  {
    hide EvenEnd;
    hide Trim;
    hide LastPart;
    hide AfterLastColon;
    hide AfterColon;
    var t := Trim(cost);
    LastDouble(t);
    if !NoDouble(t) {
      var i: nat :| DoubleAt(t, i) && LastPart(t, "##") == Some(t[i + 2..]);
      assert DoubleAt(t, i) && BasePrice(cost) == Trim(t[i + 2..]);
    } else {
      LastSingle(t);
      if '#' in t {
        var i: nat :| LastAt(t, '#', i) && LastPart(t, "#") == Some(t[i + 1..]);
        ColonCut(t[i + 1..]);
      } else {
        ColonCut(t);
        TrimIsTrimmed(cost);
      }
    }
  }

  lemma LastAtOne(s: string, c: char, i: nat, j: nat)
    requires LastAt(s, c, i) && LastAt(s, c, j)
    ensures i == j
  {
    assert forall k :: i < k < |s| ==> s[i + 1..][k - i - 1] == s[k];
    assert forall k :: j < k < |s| ==> s[j + 1..][k - j - 1] == s[k];
  }

  lemma {:induction false} EvenOrOdd(s: string)
    requires EvenEnd(s)
    ensures !EvenEnd(s + "#")
  {
    var t := s + "#";
    if s != "" && s[|s| - 1] == '#' {
      var u := s[..|s| - 1];
      assert t[..|t| - 2] == u;
      assert s[..|s| - 2] + "#" == u;
      EvenOrOdd(s[..|s| - 2]);
    }
  }

  lemma DoubleAtOne(s: string, i: nat, j: nat)
    requires DoubleAt(s, i) && DoubleAt(s, j)
    ensures i >= j
  {
    if i < j {
      assert forall k :: i + 2 <= k < |s| ==> s[i + 2..][k - i - 2] == s[k];
      assert j == i + 1;
      assert s[..j] == s[..i] + "#";
      EvenOrOdd(s[..i]);
      assert false;
    }
  }

  /** The cost indicators determine the base price. */
  lemma BaseOne(t: string, a: string, b: string)
    requires HasBase(t, a) && HasBase(t, b)
    ensures a == b
  {
    hide EvenEnd;
    hide Trim;
    forall i: nat, j: nat | DoubleAt(t, i) && DoubleAt(t, j) ensures i == j {
      DoubleAtOne(t, i, j);
      DoubleAtOne(t, j, i);
    }
    forall i: nat, j: nat | LastAt(t, '#', i) && LastAt(t, '#', j) ensures i == j { LastAtOne(t, '#', i, j); }
    if NoDouble(t) && '#' in t {
      var i: nat :| LastAt(t, '#', i) && AfterColon(t[i + 1..], a);
      ColonOne(t[i + 1..], a, b);
    } else if NoDouble(t) {
      ColonOne(t, a, b);
    }
  }

  lemma ColonOne(s: string, a: string, b: string)
    ensures AfterColon(s, a) && AfterColon(s, b) ==> a == b
  {
    hide LastAt;
    forall i: nat, j: nat | LastAt(s, ':', i) && LastAt(s, ':', j) ensures i == j { LastAtOne(s, ':', i, j); }
  }

  // --- what a set row and the cost indicators of a record cost ---------------------

  /**
    A price list gives the value for the district and no index. Without one the index list gives the
    index for the district and the cost indicators the base price, both or neither. Without both there is no price.
   */
  ghost predicate Costs(row: SetRow, cost: string, district: string, price: Price) {
    && (forall entries :: IsList(row.prices, entries) && Trim(row.prices) != "" ==>
          price.index == "" && Quotes(entries, district, price.text))
    && (forall entries, index, base ::
          Trim(row.prices) == "" && IsList(row.indexes, entries) && Quotes(entries, district, index)
          && HasBase(Trim(cost), base) ==>
            price == if index == "" || base == "" then Price("", "") else Price(base, index))
  }

  lemma UnitPriceIs(row: SetRow, cost: string, district: string)
    ensures Costs(row, cost, district, UnitPrice(row, cost, district))
  {
    hide PickValue;
    hide BasePrice;
    hide Quotes;
    hide HasBase;
    hide IsList;
    hide Trim;
    var price := UnitPrice(row, cost, district);
    PickTrimmed(row.prices, district);
    PickTrimmed(row.indexes, district);
    forall entries | IsList(row.prices, entries) && Trim(row.prices) != ""
      ensures price.index == "" && Quotes(entries, district, price.text)
    {
      PicksFirst(row.prices, entries, district);
    }
    forall entries, index, base | Trim(row.prices) == "" && IsList(row.indexes, entries)
        && Quotes(entries, district, index) && HasBase(Trim(cost), base)
      ensures price == if index == "" || base == "" then Price("", "") else Price(base, index)
    {
      PicksFirst(row.indexes, entries, district);
      QuotesOne(entries, district, index, PickValue(row.indexes, district));
      BaseIs(cost);
      BaseOne(Trim(cost), base, BasePrice(cost));
    }
  }

  lemma PickTrimmed(values: string, district: string)
    ensures PickValue(Trim(values), district) == PickValue(values, district)
    ensures Trim(values) == "" ==> PickValue(values, district) == ""
  {
    TrimIsTrimmed(values);
  }

  lemma CostsList(row: SetRow, cost: string, district: string, price: Price, entries: seq<Entry>)
    requires Costs(row, cost, district, price) && Trim(row.prices) != "" && IsList(row.prices, entries)
    ensures price.index == "" && Quotes(entries, district, price.text)
  {
    hide IsList;
    hide Quotes;
    hide HasBase;
    hide Trim;
  }

  lemma CostsIndex(row: SetRow, cost: string, district: string, price: Price, entries: seq<Entry>, index: string, base: string)
    requires Costs(row, cost, district, price) && Trim(row.prices) == "" && IsList(row.indexes, entries)
    requires Quotes(entries, district, index) && HasBase(Trim(cost), base)
    ensures price == if index == "" || base == "" then Price("", "") else Price(base, index)
  {
    hide IsList;
    hide Quotes;
    hide HasBase;
    hide Trim;
  }

  /** And these statements leave only one price. */
  lemma CostsOne(row: SetRow, cost: string, district: string, p: Price, q: Price)
    requires Costs(row, cost, district, p) && Costs(row, cost, district, q)
    ensures p == q
  {
    hide *;
    if Trim(row.prices) != "" {
      var entries := EveryTextIsList(row.prices);
      CostsList(row, cost, district, p, entries);
      CostsList(row, cost, district, q, entries);
      QuotesOne(entries, district, p.text, q.text);
    } else {
      var entries := EveryTextIsList(row.indexes);
      var index, base := PickValue(row.indexes, district), BasePrice(cost);
      PicksFirst(row.indexes, entries, district);
      BaseIs(cost);
      CostsIndex(row, cost, district, p, entries, index, base);
      CostsIndex(row, cost, district, q, entries, index, base);
    }
  }

  // --- the answer -----------------------------------------------------------------

  /** The row of the requested set for a code. */
  predicate InSet(db: Database, setId: string, code: string, row: SetRow) {
    Trim(setId) != "" && code != "" && SetKey(Trim(setId), code) in db.setRows && db.setRows[SetKey(Trim(setId), code)] == row
  }

  /** A record that is no work is priced by its own row of the set, and has no resources. */
  lemma RecordCosts(db: Database, q: Request, record: RecordRow, row: SetRow)
    requires Cipher(q.code) != "" && LookupRecord(db, Cipher(q.code)) == Some(record)
    requires !IsWorkRecord(record.code, record.kind) && InSet(db, q.setId, Trim(record.code), row)
    ensures Uncached(db, q).Ok? && Uncached(db, q).value.resources == []
    ensures Costs(row, record.costIndicators, q.district, Uncached(db, q).value.price)
  {
    hide UnitPrice;
    hide Costs;
    hide LookupRecord;
    hide IsWorkRecord;
    hide Cipher;
    UnitPriceIs(row, record.costIndicators, q.district);
  }

  /** A resource of a work is priced by the row of the set for the code its number stands for, and named by it. */
  lemma ResourceCosts(db: Database, q: Request, record: RecordRow, i: nat, codifier: Codifier, row: SetRow)
    requires Cipher(q.code) != "" && LookupRecord(db, Cipher(q.code)) == Some(record)
    requires IsWorkRecord(record.code, record.kind) && record.code in db.resources && i < |db.resources[record.code]|
    requires var number := NumberKey(db.resources[record.code][i].resourceCode);
      number != "" && number in db.codifiers && db.codifiers[number] == codifier
    requires codifier.code != "" && Trim(codifier.code) == codifier.code && codifier.code in db.records
    requires InSet(db, q.setId, codifier.code, row)
    ensures var answer := Uncached(db, q);
      && answer.Ok? && |answer.value.resources| == |db.resources[record.code]| && answer.value.price == Price("", "")
      && var resource := answer.value.resources[i];
        && Costs(row, db.records[codifier.code].costIndicators, q.district, resource.price)
        && resource.code == codifier.code && resource.name == codifier.name && resource.unit == codifier.unit
        && resource.quantityText == db.resources[record.code][i].quantityText
  {
    hide UnitPrice;
    hide Costs;
    hide LookupRecord;
    hide IsWorkRecord;
    hide Cipher;
    hide NumberKey;
    hide Trim;
    UnitPriceIs(row, db.records[codifier.code].costIndicators, q.district);
  }

  /** Without a row in the requested set there is no price. */
  lemma NoRowNoPrice(db: Database, q: Request, record: RecordRow)
    requires Cipher(q.code) != "" && LookupRecord(db, Cipher(q.code)) == Some(record)
    requires forall row :: !InSet(db, q.setId, Trim(record.code), row)
    ensures Uncached(db, q).Ok? && Uncached(db, q).value.price == Price("", "")
  {
    hide UnitPrice;
    hide LookupRecord;
    hide IsWorkRecord;
    hide Cipher;
    hide Trim;
    var key := SetKey(Trim(q.setId), Trim(record.code));
    if key in db.setRows { assert !InSet(db, q.setId, Trim(record.code), db.setRows[key]); }
  }
}

/**
  Which existing item a line of an estimate's text belongs to (web/app.js), and what the new item
  takes from it: the parts of an item that its line does not show.
 */
module EstimateIdentity {
  import opened Text
  import opened EscapedText
  import opened EstimateHeader
  import opened EstimateLines
  import opened EstimateReading
  import opened Wrappers
  import Quantities
  import RecordLookup

  /** Every item has an id and a line of its own. */
  ghost predicate Distinct(items: seq<Item>) {
    && (forall i :: 0 <= i < |items| ==> items[i].id != "")
    && (forall i, j :: 0 <= i < j < |items| ==> items[i].id != items[j].id && items[i].rawText != items[j].rawText)
  }

  /**
    The item is the same one: its id and kind; of a position its quantity and, by its source, its
    calculation or its own catalogue; of a calculated one prices and original code too.
   */
  predicate SameItem(e: Item, x: Item) {
    && x.id == e.id && x.kind == e.kind
    && (e.kind == Position ==> x.quantity == e.quantity)
    && (e.kind == Position && IsUserPosition(e) ==> x.source == e.source)
    && (e.kind == Position && !IsUserPosition(e) ==>
          && x.calcStatus == e.calcStatus && x.calcError == e.calcError
          && (Trim(e.calcStatus) == "done" ==>
                x.originalCode == e.originalCode && x.unitPrice == e.unitPrice && x.total == e.total))
  }

  lemma {:induction false} LastWithIdIs(items: seq<Item>, i: nat)
    requires i < |items| && forall k :: 0 <= k < |items| && k != i ==> items[k].id != items[i].id
    ensures LastWithId(items, items[i].id) == Some(items[i])
  {
    if i < |items| - 1 { LastWithIdIs(items[..|items| - 1], i); }
  }

  /** The only item with a property is found. */
  lemma {:induction false} FindOnly(items: seq<Item>, p: Item -> bool, from: nat, i: nat)
    requires from <= i < |items| && p(items[i]) && forall k :: 0 <= k < |items| && k != i ==> !p(items[k])
    requires forall j, k :: 0 <= j < k < |items| ==> items[j].id != items[k].id
    ensures FindItem(items, p, from) == Some(items[i])
    decreases |items| - from
  {
    hide LastWithId;
    LastWithIdIs(items, from);
    if from < i { FindOnly(items, p, from + 1, i); }
  }

  lemma TitleOf(items: seq<Item>, i: nat, str: Printer)
    requires i < |items| && items[i].kind != Position
    ensures ShownOf(items[i], str) == Title(items[i].kind == Subsection, items[i].name)
  {
  }

  /** Titles of one kind with one name have one line. */
  lemma TitleAlone(existing: seq<Item>, items: seq<Item>, i: nat, k: nat, str: Printer)
    requires Written(existing, items, str) && Distinct(existing) && i < |items| && k < |items| && k != i
    requires items[i].kind != Position
    ensures existing[k].kind != existing[i].kind || existing[k].name != existing[i].name
  {
    hide BodyOf;
    hide ShownOf;
    hide KeepsShown;
    hide ShownOk;
    if items[k].kind == items[i].kind && items[k].name == items[i].name { TitlesSame(items, i, k, str); }
  }

  lemma TitlesSame(items: seq<Item>, i: nat, k: nat, str: Printer)
    requires i < |items| && k < |items| && items[k].kind == items[i].kind != Position && items[k].name == items[i].name
    ensures ShownOf(items[k], str) == ShownOf(items[i], str)
  {
    TitleOf(items, i, str);
    TitleOf(items, k, str);
  }

  lemma TitleLine(name: string, sub: bool, str: Printer)
    ensures var body := BodyOf(Title(sub, name), str);
      && !IsSkipped(body) && StartsWith(body, "ПР") == sub && (!sub ==> StartsWith(body, "Р"))
      && (if sub then body[2..] else body[1..]) == Escape(name)
  {
    hide Escape;
    var body := BodyOf(Title(sub, name), str);
    if sub {
      assert body[0] == 'П' && body[1] == 'Р' && body[..2] == "ПР";
    } else {
      assert body[0] == 'Р' && body[..1] == "Р";
    }
  }

  lemma ReadOwnTitle(existing: seq<Item>, items: seq<Item>, i: nat, sofar: seq<Item>, freshId: string, str: Printer)
    requires Written(existing, items, str) && Distinct(existing) && i < |items| && items[i].kind != Position
    ensures var step := ReadLine(existing, sofar, BodyOf(ShownOf(items[i], str), str), freshId);
      step.Add? && SameItem(existing[i], step.item)
  {
    var e := items[i];
    TitleOf(items, i, str);
    assert ShownOk(ShownOf(e, str), str);
    TitleLine(e.name, e.kind == Subsection, str);
    SurvivesIff(e.name);
    var kind, name := e.kind, e.name;
    forall k | 0 <= k < |existing| && k != i ensures !(existing[k].kind == kind && existing[k].name == name) {
      TitleAlone(existing, items, i, k, str);
    }
    assert existing[i] == Stored(e, str);
    hide BodyOf;
    hide Escape;
    hide Unescape;
    hide FindItem;
    hide IsSkipped;
    hide Written;
    FindOnly(existing, (x: Item) => x.kind == kind && x.name == name, 0, i);
  }

  lemma ReadOwnPosition(existing: seq<Item>, items: seq<Item>, i: nat, sofar: seq<Item>, freshId: string, str: Printer)
    requires Written(existing, items, str) && Distinct(existing) && i < |items| && items[i].kind == Position
    ensures var step := ReadLine(existing, sofar, BodyOf(ShownOf(items[i], str), str), freshId);
      step.Add? && SameItem(existing[i], step.item)
  {
    hide BodyOf;
    hide FindItem;
    hide LineFields;
    hide ParseFields;
    hide KeepsShown;
    hide IsSkipped;
    hide RecordLookup.Cipher;
    hide NthWithCode;
    hide OriginalCode;
    hide UserPrice;
    hide UserTotal;
    var s := ShownOf(items[i], str);
    assert ShownOk(s, str) && existing[i] == Stored(items[i], str);
    hide ShownOk;
    hide ShownOf;
    var body := BodyOf(s, str);
    BodyIsPosition(s, str);
    BodyFields(s, str);
    PartsCount(s, str);
    ParseLineParts(s, str);
    hide Written;
    FindOnly(existing, (x: Item) => x.rawText == body, 0, i);
    BuiltSame(existing[i], FieldsOf(s, str), freshId);
    hide BuildItem;
    hide SameItem;
  }

  /** Built from the unchanged line, the item is the same one. */
  lemma BuiltSame(e: Item, f: Fields, freshId: string)
    requires e.kind == Position && e.id != ""
    ensures SameItem(e, BuildItem(Some(e), f, e.rawText, freshId))
  {
    hide RecordLookup.Cipher;
    hide OriginalCode;
    hide UserPrice;
    hide UserTotal;
    hide Trim;
  }

  /** Reading the written lines of distinct items gives the same items, one for one. */
  lemma {:induction false} ReadKeepsItems(existing: seq<Item>, items: seq<Item>, lines: seq<string>, k: nat,
                                          freshId: nat -> string, str: Printer)
    requires Written(existing, items, str) && Distinct(existing) && k <= |items| && ItemLines(items, str) <= lines
    ensures var r := ReadLines(existing, lines, k, freshId);
      && r.Some? && |r.value| == k && |existing| == |items|
      && forall i :: 0 <= i < k ==> SameItem(existing[i], r.value[i])
  {
    hide Written;
    hide Distinct;
    hide ReadLine;
    hide ShownOf;
    hide BodyOf;
    hide TrimRight;
    hide SameItem;
    WrittenCount(existing, items, str);
    if k > 0 {
      ReadKeepsItems(existing, items, lines, k - 1, freshId, str);
      var sofar := ReadLines(existing, lines, k - 1, freshId).value;
      var body := BodyOf(ShownOf(items[k - 1], str), str);
      assert lines[k - 1] == ItemLines(items, str)[k - 1] == body + "*";
      RecordLineOf(body);
      if items[k - 1].kind == Position {
        ReadOwnPosition(existing, items, k - 1, sofar, freshId(k), str);
      } else {
        ReadOwnTitle(existing, items, k - 1, sofar, freshId(k), str);
      }
    }
  }

  // --- edited lines -----------------------------------------------------------

  /** The positions of the norm base with this code before position j. */
  function EarlierWithCode(items: seq<Item>, code: string, j: nat): set<nat> {
    set k: nat | k < j && k < |items| && IsGsn(items[k]) && ItemCode(items[k]) == code
  }

  /** The positions read so far whose line has this code. */
  function ReadWithCode(items: seq<Item>, code: string): set<nat> {
    set k: nat | k < |items| && items[k].kind == Position && LineCode(items[k]) == code
  }

  lemma ReadOneMore(items: seq<Item>, code: string)
    requires items != []
    ensures var n := |items| - 1;
      |ReadWithCode(items, code)|
      == |ReadWithCode(items[..n], code)| + if items[n].kind == Position && LineCode(items[n]) == code then 1 else 0
  {
    hide LineCode;
    var n := |items| - 1;
    var before := ReadWithCode(items[..n], code);
    assert ReadWithCode(items, code) == before + if items[n].kind == Position && LineCode(items[n]) == code then {n} else {};
    assert n !in before;
  }

  lemma {:induction false} PositionsCounted(items: seq<Item>, code: string)
    ensures PositionsWithCode(items, code) == |ReadWithCode(items, code)|
  {
    hide LineCode;
    if items == [] {
      assert ReadWithCode(items, code) == {};
    } else {
      hide ReadWithCode;
      PositionsCounted(items[..|items| - 1], code);
      ReadOneMore(items, code);
    }
  }

  /** The set moved by one position. */
  function Moved(a: set<nat>): set<nat> {
    set k | k in a :: k + 1
  }

  lemma {:induction false} MovedSize(a: set<nat>)
    ensures |Moved(a)| == |a|
  {
    if a == {} {
      assert Moved(a) == {};
    } else {
      var k :| k in a;
      MovedSize(a - {k});
      var less := Moved(a - {k});
      forall x ensures x in Moved(a) <==> x in less + {k + 1} {
        if x in Moved(a) && x != k + 1 { assert x - 1 in a - {k}; }
      }
      assert Moved(a) == less + {k + 1} && k + 1 !in less;
    }
  }

  lemma EarlierMoved(items: seq<Item>, code: string, j: nat)
    requires 0 < j < |items|
    ensures |EarlierWithCode(items, code, j)|
            == |EarlierWithCode(items[1..], code, j - 1)| + if IsGsn(items[0]) && ItemCode(items[0]) == code then 1 else 0
  {
    hide ItemCode;
    hide IsGsn;
    var all, rest := EarlierWithCode(items, code, j), EarlierWithCode(items[1..], code, j - 1);
    MovedSize(rest);
    var moved := Moved(rest);
    forall k: nat | k > 0 ensures k in all <==> k in moved {
      assert k in moved <==> k - 1 in rest;
    }
    assert 0 !in moved;
    assert all == moved + if IsGsn(items[0]) && ItemCode(items[0]) == code then {0} else {};
  }

  /** The item with this code that has n earlier ones before it is the one found for number n. */
  lemma {:induction false} NthIsFound(items: seq<Item>, code: string, n: nat, j: nat)
    requires j < |items| && code != "" && IsGsn(items[j]) && ItemCode(items[j]) == code && |EarlierWithCode(items, code, j)| == n
    ensures NthWithCode(items, code, n) == Some(items[j])
  {
    hide ItemCode;
    hide IsGsn;
    if j > 0 {
      hide EarlierWithCode;
      EarlierMoved(items, code, j);
      NthIsFound(items[1..], code, |EarlierWithCode(items[1..], code, j - 1)|, j - 1);
    } else {
      assert EarlierWithCode(items, code, j) == {};
    }
  }

  /**
    An edited line, which no item has, belongs to the position of the norm base with its code that has as many
    before it as positions with that code were read: it keeps that id, takes quantity, total, name and
    unit from the line, and forgets its calculation.
   */
  lemma EditedLineKeepsId(existing: seq<Item>, sofar: seq<Item>, line: string, f: Fields, j: nat, freshId: string)
    requires !IsSkipped(line) && !IsStructuralText(line) && |LineFields(line)| >= 2 && ParseFields(LineFields(line)) == Some(f)
    requires forall k :: 0 <= k < |existing| ==> existing[k].rawText != line
    requires var code := RecordLookup.Cipher(f.cipher);
      && j < |existing| && code != "" && IsGsn(existing[j]) && ItemCode(existing[j]) == code
      && |EarlierWithCode(existing, code, j)| == |ReadWithCode(sofar, code)|
    requires existing[j].id != ""
    ensures var step := ReadLine(existing, sofar, line, freshId);
      && step.Add? && step.item.id == existing[j].id && step.item.kind == Position && step.item.source == Gsn
      && step.item.quantity == f.quantity && step.item.total == f.total && step.item.name == f.name && step.item.unit == f.unit
      && step.item.unitPrice == 0.0 && step.item.calcStatus == "" && step.item.originalCode == ""
  {
    hide ItemCode;
    hide LineFields;
    hide ParseFields;
    hide IsSkipped;
    hide RecordLookup.Cipher;
    hide EarlierWithCode;
    hide ReadWithCode;
    hide PositionsWithCode;
    hide NthWithCode;
    hide FindItem;
    var code := RecordLookup.Cipher(f.cipher);
    PositionsCounted(sofar, code);
    NthIsFound(existing, code, PositionsWithCode(sofar, code), j);
    NoneFound(existing, line, 0);
    GsnIsNoUser(existing[j]);
  }

  lemma {:induction false} NoneFound(existing: seq<Item>, line: string, from: nat)
    requires from <= |existing| && forall k :: 0 <= k < |existing| ==> existing[k].rawText != line
    ensures FindItem(existing, (x: Item) => x.rawText == line, from) == None
    decreases |existing| - from
  {
    FindItemIn(existing, (x: Item) => x.rawText == line, from);
  }

  lemma GsnIsNoUser(x: Item)
    requires IsGsn(x)
    ensures !IsUserPosition(x)
  {
  }

  /** A marker in brackets behind the quantity is not looked at. */
  lemma MarkerSkipped(cipher: string, quantity: string, marker: string, total: string, name: string, unit: string)
    requires IsIndexMarker(marker) && !IsIndexMarker(total)
    ensures ParseFields([cipher, quantity, marker, total, name, unit]) == ParseFields([cipher, quantity, total, name, unit])
  {
    hide IsIndexMarker;
    hide Trim;
    hide Quantities.QuantityOf;
  }
}

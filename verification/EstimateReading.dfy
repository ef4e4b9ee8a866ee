/** Reading the written item lines of an estimate (web/app.js): every item comes back as it was shown. */
module EstimateReading {
  import opened Text
  import opened Numbers
  import opened EscapedText
  import opened EstimateHeader
  import opened EstimateLines
  import opened Wrappers
  import Quantities
  import QuantityGrammar
  import RecordLookup

  // --- one item -------------------------------------------------------------

  /** Items that have been written: each holds its line as raw text. */
  ghost predicate Written(existing: seq<Item>, items: seq<Item>, str: Printer) {
    && |existing| == |items|
    && (forall i :: 0 <= i < |items| ==> ShownOk(ShownOf(items[i], str), str) && KeepsShown(items[i], str))
    && (forall i :: 0 <= i < |items| ==> existing[i] == Stored(items[i], str))
  }

  lemma {:induction false} LastWithIdIn(items: seq<Item>, id: string)
    ensures LastWithId(items, id).Some? ==> LastWithId(items, id).value in items
  {
    if items != [] && items[|items| - 1].id != id { LastWithIdIn(items[..|items| - 1], id); }
  }

  lemma {:induction false} FindItemIn(items: seq<Item>, p: Item -> bool, from: nat)
    requires from <= |items|
    ensures var r := FindItem(items, p, from); r.Some? ==> r.value in items && p(r.value)
    decreases |items| - from
  {
    if from < |items| {
      LastWithIdIn(items, items[from].id);
      FindItemIn(items, p, from + 1);
    }
  }

  lemma {:induction false} NthWithCodeIn(items: seq<Item>, code: string, n: nat)
    ensures var r := NthWithCode(items, code, n); r.Some? ==> r.value in items && !IsUserPosition(r.value)
  {
    hide ItemCode;
    hide FetchCode;
    if items != [] {
      NthWithCodeIn(items[1..], code, n);
      if n > 0 { NthWithCodeIn(items[1..], code, n - 1); }
    }
  }

  /** Whatever existing item a line is matched with, the new item shows what the line shows. */
  lemma BuiltShows(s: Shown, found: Option<Item>, existing: seq<Item>, items: seq<Item>, freshId: string, str: Printer)
    requires s.Line? && ShownOk(s, str) && Written(existing, items, str)
    requires found.Some? ==> found.value in existing
    requires found.Some? && IsUserPosition(found.value) ==> found.value.rawText == BodyOf(s, str)
    ensures ShownOf(BuildItem(found, FieldsOf(s, str), BodyOf(s, str), freshId), str) == s
  {
    hide BuildPosition;
    hide BuildUserPosition;
    hide KeepsShown;
    hide ShownOk;
    hide BodyOf;
    hide ParseRaw;
    hide ShownOf;
    hide FieldsOf;
    hide CipherRaw;
    hide QuantityRaw;
    hide CalcDone;
    var body := BodyOf(s, str);
    if found.Some? && found.value.rawText == body {
      var i :| 0 <= i < |items| && existing[i] == found.value;
      TitleOrSame(s, items[i], str);
      if IsUserPosition(found.value) {
        UserShownIff(s, items[i], found.value, freshId, str);
      } else {
        SameShown(s, items[i], found.value, freshId, str);
      }
    } else {
      NewShown(s, found, freshId, str);
    }
  }

  lemma TitleOrSame(s: Shown, g: Item, str: Printer)
    requires s.Line? && ShownOk(s, str) && ShownOk(ShownOf(g, str), str)
    requires BodyOf(ShownOf(g, str), str) == BodyOf(s, str)
    ensures ShownOf(g, str) == s
  {
    hide ShownOk;
    BodyIsPosition(s, str);
    var t := ShownOf(g, str);
    if t.Line? {
      BodyInjective(s, t, str);
    } else {
      TitleIsStructural(t, str);
    }
  }

  lemma TitleIsStructural(t: Shown, str: Printer)
    requires t.Title?
    ensures IsStructuralText(BodyOf(t, str))
  {
  }

  lemma CipherAndQuantity(s: Shown, x: Item, str: Printer)
    requires s.Line? && ShownOk(s, str) && x.rawText == BodyOf(s, str)
    ensures CipherRaw(x) == if s.cipher != "" then s.cipher else Trim(if x.code != "" then x.code else x.recordCode)
    ensures QuantityRaw(x, str) == s.quantity
  {
    hide BodyOf;
    hide LineFields;
    hide CipherOk;
    hide FieldSafe;
    hide ParseDecimal;
    BodyIsPosition(s, str);
    TrimIsTrimmed(BodyOf(s, str));
    BodyFields(s, str);
    TrimIsTrimmed(s.cipher);
    TrimIsTrimmed(s.quantity);
    TrimIsTrimmed("");
  }

  lemma EmptyCipher()
    ensures RecordLookup.Cipher("") == ""
  {
  }

  lemma NewShown(s: Shown, found: Option<Item>, freshId: string, str: Printer)
    requires s.Line? && ShownOk(s, str) && (found.Some? ==> found.value.rawText != BodyOf(s, str))
    ensures ShownOf(BuildPosition(found, FieldsOf(s, str), BodyOf(s, str), freshId), str) == s
  {
    hide BodyOf;
    hide ParseRaw;
    hide CipherRaw;
    hide QuantityRaw;
    hide RecordLookup.Cipher;
    hide ParseDecimal;
    hide CipherOk;
    hide FieldSafe;
    EmptyCipher();
    TrimIsTrimmed("");
    ParseRawBody(s, str);
    TrimIsTrimmed(s.name);
    TrimIsTrimmed(s.unit);
    var x := BuildPosition(found, FieldsOf(s, str), BodyOf(s, str), freshId);
    CipherAndQuantity(s, x, str);
  }

  lemma SameShown(s: Shown, g: Item, e: Item, freshId: string, str: Printer)
    requires s.Line? && ShownOk(s, str) && ShownOf(g, str) == s && e == Stored(g, str)
    ensures ShownOf(BuildPosition(Some(e), FieldsOf(s, str), BodyOf(s, str), freshId), str) == s
  {
    hide BodyOf;
    hide ParseRaw;
    hide CipherRaw;
    hide QuantityRaw;
    hide RecordLookup.Cipher;
    hide ParseDecimal;
    hide CipherOk;
    hide FieldSafe;
    EmptyCipher();
    TrimIsTrimmed("");
    ParseRawBody(s, str);
    TrimIsTrimmed(s.name);
    TrimIsTrimmed(s.unit);
    var x := BuildPosition(Some(e), FieldsOf(s, str), BodyOf(s, str), freshId);
    CipherAndQuantity(s, x, str);
  }

  lemma ZeroProduct(x: real, y: real)
    requires x != 0.0 && y != 0.0
    ensures QuantityGrammar.Product(x, y) != 0.0
  {
  }

  /** The total of a user position after reading its own line. */
  lemma UserTotalShown(s: Shown, g: Item, e: Item, str: Printer)
    requires s.Line? && ShownOk(s, str) && ShownOf(g, str) == s && e == Stored(g, str)
    ensures var t := UserTotal(e, FieldsOf(s, str));
      (if t != 0.0 then t else s.total) == s.total <==>
        s.total != 0.0 || QuantityValue(s.quantity) == 0.0 || g.unitPrice == 0.0
  {
    hide BodyOf;
    hide ParseRaw;
    hide CipherRaw;
    hide QuantityRaw;
    hide ParseDecimal;
    hide CipherOk;
    hide FieldSafe;
    hide QuantityValue;
    hide QuantityGrammar.Product;
    hide QuantityGrammar.Quotient;
    if s.total == 0.0 && QuantityValue(s.quantity) != 0.0 && g.unitPrice != 0.0 {
      ZeroProduct(QuantityValue(s.quantity), g.unitPrice);
    }
  }

  /** A position of the user's own catalogue comes back as it was shown exactly when nothing is filled in. */
  lemma UserShownIff(s: Shown, g: Item, e: Item, freshId: string, str: Printer)
    requires s.Line? && ShownOk(s, str) && ShownOf(g, str) == s && e == Stored(g, str) && IsUserPosition(e)
    ensures ShownOf(BuildUserPosition(e, FieldsOf(s, str), BodyOf(s, str), freshId), str) == s <==> KeepsShown(g, str)
  {
    UserTotalShown(s, g, e, str);
    hide BodyOf;
    hide ParseRaw;
    hide CipherRaw;
    hide QuantityRaw;
    hide QuantityValue;
    hide RecordLookup.Cipher;
    hide ParseDecimal;
    hide CipherOk;
    hide FieldSafe;
    hide UserTotal;
    hide UserPrice;
    hide OriginalCode;
    EmptyCipher();
    TrimIsTrimmed("");
    ParseRawBody(s, str);
    TrimIsTrimmed(s.name);
    TrimIsTrimmed(s.unit);
    var x := BuildUserPosition(e, FieldsOf(s, str), BodyOf(s, str), freshId);
    CipherAndQuantity(s, x, str);
  }

  /** Reading the line of any item gives an item that shows the same. */
  lemma ReadLineOfItem(existing: seq<Item>, items: seq<Item>, i: nat, sofar: seq<Item>, freshId: string, str: Printer)
    requires Written(existing, items, str) && i < |items|
    ensures var s := ShownOf(items[i], str);
      var step := ReadLine(existing, sofar, BodyOf(s, str), freshId);
      step.Add? && ShownOf(step.item, str) == s && step.item.rawText == BodyOf(s, str)
  {
    hide ShownOk;
    hide ShownOf;
    var s := ShownOf(items[i], str);
    if s.Title? {
      ReadTitle(existing, sofar, s, freshId, str);
    } else {
      ReadPosition(existing, items, sofar, s, freshId, str);
    }
  }

  lemma ReadTitle(existing: seq<Item>, sofar: seq<Item>, s: Shown, freshId: string, str: Printer)
    requires s.Title? && ShownOk(s, str)
    ensures var step := ReadLine(existing, sofar, BodyOf(s, str), freshId);
      step.Add? && ShownOf(step.item, str) == s && step.item.rawText == BodyOf(s, str)
  {
    hide Escape;
    hide Unescape;
    hide FindItem;
    var body, name := BodyOf(s, str), Escape(s.name);
    SurvivesIff(s.name);
    if s.sub {
      assert body[2..] == name && body[0] == 'П' && body[1] == 'Р';
    } else {
      assert body[1..] == name && body[0] == 'Р';
    }
  }

  lemma ReadPosition(existing: seq<Item>, items: seq<Item>, sofar: seq<Item>, s: Shown, freshId: string, str: Printer)
    requires s.Line? && ShownOk(s, str) && Written(existing, items, str)
    ensures var step := ReadLine(existing, sofar, BodyOf(s, str), freshId);
      step.Add? && ShownOf(step.item, str) == s && step.item.rawText == BodyOf(s, str)
  {
    hide ShownOk;
    hide ShownOf;
    hide BodyOf;
    hide LineFields;
    hide ParseFields;
    hide IsSkipped;
    hide FindItem;
    hide NthWithCode;
    hide RecordLookup.Cipher;
    var body := BodyOf(s, str);
    BodyIsPosition(s, str);
    BodyFields(s, str);
    PartsCount(s, str);
    ParseLineParts(s, str);
    var f := FieldsOf(s, str);
    var code := RecordLookup.Cipher(f.cipher);
    var byText := FindItem(existing, (x: Item) => x.rawText == body, 0);
    var nth := NthWithCode(existing, code, PositionsWithCode(sofar, code));
    FindItemIn(existing, (x: Item) => x.rawText == body, 0);
    NthWithCodeIn(existing, code, PositionsWithCode(sofar, code));
    BuiltShows(s, if byText.Some? then byText else nth, existing, items, freshId, str);
  }

  // --- the lines of a text --------------------------------------------------

  /** trimSourceDataRecordLine */
  function RecordLine(line: string): Option<string> {
    var t := TrimRight(line);
    if t != "" && t[|t| - 1] == '*' then Some(t[..|t| - 1]) else None
  }

  lemma RecordLineOf(body: string)
    ensures TrimRight(body + "*") == body + "*" && RecordLine(body + "*") == Some(body)
  {
  }

  /** The loop over the lines behind the title lines. */
  function ReadLines(existing: seq<Item>, lines: seq<string>, k: nat, freshId: nat -> string): Option<seq<Item>>
    requires k <= |lines|
  {
    if k == 0 then Some([])
    else match ReadLines(existing, lines, k - 1, freshId)
      case None => None
      case Some(sofar) =>
        if TrimRight(lines[k - 1]) == "" then Some(sofar)
        else match RecordLine(lines[k - 1])
          case None => None
          case Some(line) =>
            match ReadLine(existing, sofar, line, freshId(k))
            case Skip => Some(sofar)
            case Fail => None
            case Add(item) => Some(sofar + [item])
  }

  function ItemLines(items: seq<Item>, str: Printer): (lines: seq<string>)
    ensures |lines| == |items|
  {
    seq(|items|, i requires 0 <= i < |items| => BodyOf(ShownOf(items[i], str), str) + "*")
  }

  ghost predicate ShowSame(a: seq<Item>, items: seq<Item>, k: nat, str: Printer) {
    && k <= |items| && |a| == k
    && forall i :: 0 <= i < k ==> ShownOf(a[i], str) == ShownOf(items[i], str)
  }

  lemma {:induction false} ReadItemLines(existing: seq<Item>, items: seq<Item>, lines: seq<string>, k: nat,
                                         freshId: nat -> string, str: Printer)
    requires Written(existing, items, str) && k <= |items| && ItemLines(items, str) <= lines
    ensures var r := ReadLines(existing, lines, k, freshId); r.Some? && ShowSame(r.value, items, k, str)
  {
    hide Written;
    hide ReadLine;
    hide ShownOf;
    hide BodyOf;
    hide TrimRight;
    if k > 0 {
      ReadItemLines(existing, items, lines, k - 1, freshId, str);
      var sofar := ReadLines(existing, lines, k - 1, freshId).value;
      var body := BodyOf(ShownOf(items[k - 1], str), str);
      assert lines[k - 1] == ItemLines(items, str)[k - 1] == body + "*";
      RecordLineOf(body);
      WrittenCount(existing, items, str);
      ReadLineOfItem(existing, items, k - 1, sofar, freshId(k), str);
    }
  }

  lemma WrittenCount(existing: seq<Item>, items: seq<Item>, str: Printer)
    requires Written(existing, items, str)
    ensures |existing| == |items|
  {
  }

  /** Lines that show the same are written the same. */
  lemma SameLines(a: seq<Item>, items: seq<Item>, str: Printer)
    requires ShowSame(a, items, |items|, str)
    ensures ItemLines(a, str) == ItemLines(items, str)
  {
  }

  // --- exactly which codes are read as positions ------------------------------

  /** All conditions on a line but the one on its code. */
  predicate FieldsOk(s: Shown, str: Printer)
    requires s.Line?
  {
    && PartOk(s.cipher) && PartOk(s.quantity) && PartOk(s.name) && PartOk(s.unit)
    && s.quantity != "" && Quantities.QuantityOf(s.quantity).Some?
    && (s.total != 0.0 ==> NumberLike(str(s.total)) && ParseDecimal(str(s.total)) == Some(s.total))
  }

  lemma BodyStarts(s: Shown, str: Printer)
    requires s.Line?
    ensures Escaped(s.cipher) + "'" <= BodyOf(s, str)
  {
    hide Escape;
    var escaped := EscapeAll(LineParts(s, str));
    EscapeIsEscaped(s.cipher);
    JoinMore(escaped);
    assert escaped[0] == Escaped(s.cipher);
  }

  lemma MarkedBody(cipher: string, body: string)
    requires Escaped(cipher) + "'" <= body && !CipherOk(cipher)
    ensures IsSkipped(body) || IsStructuralText(body)
  {
  }

  /** A position comes back as itself exactly when its code is none of the marks of other lines. */
  lemma PositionReadIff(existing: seq<Item>, items: seq<Item>, sofar: seq<Item>, s: Shown, freshId: string, str: Printer)
    requires s.Line? && FieldsOk(s, str) && Written(existing, items, str)
    ensures var step := ReadLine(existing, sofar, BodyOf(s, str), freshId);
      step.Add? && ShownOf(step.item, str) == s <==> CipherOk(s.cipher)
  {
    hide BodyOf;
    hide CipherOk;
    hide PartOk;
    hide ParseDecimal;
    hide FindItem;
    hide ParseFields;
    hide LineFields;
    hide Unescape;
    if CipherOk(s.cipher) {
      ReadPosition(existing, items, sofar, s, freshId, str);
    } else {
      BodyStarts(s, str);
      MarkedBody(s.cipher, BodyOf(s, str));
    }
  }
}

/**
  The item lines of an estimate's text (web/app.js): sections, subsections and positions written
  as lines and read back, and the whole text around them.

  How a number is printed is a parameter, a function from numbers to texts.
 */
module EstimateLines {
  import opened Text
  import opened Numbers
  import opened EscapedText
  import opened EstimateHeader
  import opened Wrappers
  import Quantities
  import QuantityGrammar
  import RecordLookup

  datatype Kind = Section | Subsection | Position

  /** Where a position comes from: the norm base, the user's own catalogue, or nothing is said. */
  datatype Source = Gsn | UserPosition(sourceId: string) | NoSource

  datatype Item = Item(kind: Kind, source: Source, id: string, sourceCode: string, code: string, recordCode: string,
                       originalCode: string, name: string, unit: string, quantity: real, unitPrice: real,
                       total: real, calcStatus: string, calcError: string, rawText: string)

  type Printer = real -> string

  // --- fields of a position line --------------------------------------------

  datatype Fields = Fields(cipher: string, quantityText: string, quantity: real, totalText: string, total: real,
                           name: string, unit: string)

  predicate IsStructuralText(s: string) {
    StartsWith(s, "Р") || StartsWith(s, "ПР")
  }

  /** isSourceDataIndexMarkerField */
  predicate IsIndexMarker(field: string) {
    var t := Trim(field);
    t != "" && t[0] == '[' && t[|t| - 1] == ']'
  }

  function LineFields(line: string): (fields: seq<string>)
    ensures |fields| >= 1
  {
    UnescapeAll(Split(line, '\''))
  }

  /** parseSourceDataPositionLineFields; none when the quantity cannot be read */
  function ParseFields(fields: seq<string>): Option<Fields> {
    var quantityText := Trim(FieldAt(fields, 1));
    var shift := if |fields| > 2 && IsIndexMarker(fields[2]) then 1 else 0;
    var totalText := Trim(FieldAt(fields, 2 + shift));
    match if quantityText != "" then Quantities.QuantityOf(quantityText) else Some(0.0)
    case None => None
    case Some(quantity) =>
      Some(Fields(Trim(FieldAt(fields, 0)), quantityText, quantity, totalText,
                  if totalText != "" then TextNumber(totalText) else 0.0,
                  Trim(FieldAt(fields, 3 + shift)), Trim(FieldAt(fields, 4 + shift))))
  }

  /** parseSourceDataPositionLineFieldsFromRawText */
  function ParseRaw(rawText: string): Option<Fields> {
    var line := Trim(rawText);
    if line == "" || IsStructuralText(line) || |LineFields(line)| < 2 then None else ParseFields(LineFields(line))
  }

  // --- writing --------------------------------------------------------------

  /** estimateSourceDataPositionCipherRaw */
  function CipherRaw(item: Item): string {
    var line := Trim(item.rawText);
    if line != "" && !IsStructuralText(line) && LineFields(line)[0] != "" then Trim(LineFields(line)[0])
    else Trim(if item.code != "" then item.code else item.recordCode)
  }

  /** estimateSourceDataQuantityRaw */
  function QuantityRaw(item: Item, str: Printer): string {
    var line := Trim(item.rawText);
    if line != "" && !IsStructuralText(line) && Trim(FieldAt(LineFields(line), 1)) != ""
    then Trim(FieldAt(LineFields(line), 1)) else str(item.quantity)
  }

  /** What an item shows in the text. */
  datatype Shown =
    | Title(sub: bool, name: string)
    | Line(cipher: string, quantity: string, total: real, name: string, unit: string)

  /** estimateSourceDataPositionSerializedFields with cipher and quantity */
  function ShownOf(item: Item, str: Printer): Shown {
    if item.kind != Position then Title(item.kind == Subsection, item.name)
    else
      var parsed := ParseRaw(item.rawText);
      var name := if Trim(item.name) != "" then Trim(item.name) else if parsed.Some? then parsed.value.name else "";
      var unit := if Trim(item.unit) != "" then Trim(item.unit) else if parsed.Some? then parsed.value.unit else "";
      var total := if item.total != 0.0 then item.total else if parsed.Some? then parsed.value.total else 0.0;
      Line(CipherRaw(item), QuantityRaw(item, str), total, name, unit)
  }

  function LineParts(s: Shown, str: Printer): seq<string>
    requires s.Line?
  {
    if s.name == "" && s.unit == "" && s.total == 0.0 then [s.cipher, s.quantity]
    else [s.cipher, s.quantity, if s.total != 0.0 then str(s.total) else "", s.name, s.unit]
  }

  /** serializeSourceDataItemLine, without the closing star */
  function BodyOf(s: Shown, str: Printer): string {
    match s
    case Title(sub, name) => (if sub then "ПР" else "Р") + Escape(name)
    case Line(_, _, _, _, _) => Join(EscapeAll(LineParts(s, str)), '\'')
  }

  /** Writing an item leaves its line behind as raw text. */
  function Stored(item: Item, str: Printer): Item {
    item.(rawText := BodyOf(ShownOf(item, str), str))
  }

  // --- reading --------------------------------------------------------------

  /** The values of a map from ids to items: a repeated id keeps its place and takes the last item. */
  function LastWithId(items: seq<Item>, id: string): Option<Item> {
    if items == [] then None
    else if items[|items| - 1].id == id then Some(items[|items| - 1])
    else LastWithId(items[..|items| - 1], id)
  }

  /** The first value of that map with this property. */
  function FindItem(items: seq<Item>, p: Item -> bool, from: nat): Option<Item>
    requires from <= |items|
    decreases |items| - from
  {
    if from == |items| then None
    else
      var kept := LastWithId(items, items[from].id);
      if kept.Some? && p(kept.value) then kept else FindItem(items, p, from + 1)
  }

  function SourceCode(item: Item): string {
    Trim(if item.sourceCode != "" then item.sourceCode else if item.recordCode != "" then item.recordCode else item.code)
  }

  function FetchCode(item: Item): string {
    Trim(if item.recordCode != "" then item.recordCode else if item.sourceCode != "" then item.sourceCode else item.code)
  }

  function ItemCode(item: Item): string {
    var cipher := RecordLookup.Cipher(SourceCode(item));
    if cipher != "" then cipher else FetchCode(item)
  }

  /** estimateLineIsGsn */
  predicate IsGsn(item: Item) {
    item.source.Gsn?
    || (item.source.NoSource? && item.kind == Position && Trim(item.rawText) != "" && FetchCode(item) != "")
  }

  /** findExistingGsnItemByCodeOccurrence */
  function NthWithCode(items: seq<Item>, code: string, n: nat): Option<Item> {
    if items == [] || code == "" then None
    else if IsGsn(items[0]) && ItemCode(items[0]) == code then
      if n == 0 then Some(items[0]) else NthWithCode(items[1..], code, n - 1)
    else NthWithCode(items[1..], code, n)
  }

  /** The code of the line an item was read from. */
  function LineCode(item: Item): string {
    RecordLookup.Cipher(Trim(LineFields(item.rawText)[0]))
  }

  /** gsnCodeOccurrence: how many positions read so far have this code. */
  function PositionsWithCode(items: seq<Item>, code: string): nat {
    if items == [] then 0
    else PositionsWithCode(items[..|items| - 1], code)
         + if items[|items| - 1].kind == Position && LineCode(items[|items| - 1]) == code then 1 else 0
  }

  datatype Step = Skip | Fail | Add(item: Item)

  /** isSourceDataSkippedLine */
  predicate IsSkipped(line: string) {
    line == "К" || StartsWith(line, "К'") || StartsWith(line, "F(")
  }

  predicate CalcDone(item: Item) {
    Trim(item.calcStatus) == "done"
  }

  /** buildGsnPositionItemFromSourceDataLine */
  function BuildPosition(existing: Option<Item>, f: Fields, rawText: string, freshId: string): Item {
    var same := existing.Some? && existing.value.rawText == rawText;
    var done := same && CalcDone(existing.value);
    var code := RecordLookup.Cipher(f.cipher);
    Item(Position, Gsn, if existing.Some? && existing.value.id != "" then existing.value.id else freshId,
         if f.cipher != "" then f.cipher else code, code, code,
         if done then existing.value.originalCode else "",
         if f.name != "" then f.name else if done then existing.value.name else "",
         if f.unit != "" then f.unit else if done then existing.value.unit else "",
         if same then existing.value.quantity else f.quantity,
         if done then existing.value.unitPrice else 0.0,
         if done then existing.value.total else f.total,
         if same then existing.value.calcStatus else "", if same then existing.value.calcError else "", rawText)
  }

  /** extractSourceDataPositionOriginalCode: the first bracket that does not begin with an equals sign */
  function OriginalCode(s: string): string
    decreases |s|
  {
    var open := IndexOfChar(s, '(');
    if open == |s| then ""
    else
      var rest := s[open + 1..];
      var close := IndexOfChar(rest, ')');
      if close == |rest| then ""
      else if !StartsWith(Trim(rest[..close]), "=") then Trim(rest[..close])
      else OriginalCode(rest[close + 1..])
  }

  method ExtractOriginalCode(cipher: string) returns (code: string)
    ensures code == OriginalCode(Trim(cipher))
  {
    hide Trim;
    hide IndexOfChar;
    var s := Trim(cipher);
    while s != ""
      invariant OriginalCode(s) == OriginalCode(Trim(cipher))
      decreases |s|
    {
      var open := IndexOfChar(s, '(');
      if open == |s| {
        return "";
      }
      var rest := s[open + 1..];
      var close := IndexOfChar(rest, ')');
      if close == |rest| {
        return "";
      }
      var inner := Trim(rest[..close]);
      if !StartsWith(inner, "=") {
        return inner;
      }
      s := rest[close + 1..];
    }
    return "";
  }

  predicate IsUserPosition(item: Item) {
    item.source.UserPosition? && item.source.sourceId != ""
  }

  function UserPrice(e: Item, f: Fields): real {
    if f.totalText != "" then 0.0
    else if e.total != 0.0 && f.quantity != 0.0 && e.unitPrice == 0.0 then QuantityGrammar.Quotient(e.total, f.quantity)
    else e.unitPrice
  }

  function UserTotal(e: Item, f: Fields): real {
    var total, price := if f.totalText != "" then f.total else e.total, UserPrice(e, f);
    if total == 0.0 && f.quantity != 0.0 && price != 0.0 then QuantityGrammar.Product(f.quantity, price) else total
  }

  /** A line of the user's own catalogue keeps what its text does not say. */
  function BuildUserPosition(e: Item, f: Fields, rawText: string, freshId: string): Item
    requires e.source.UserPosition?
  {
    var code, original := RecordLookup.Cipher(f.cipher), OriginalCode(f.cipher);
    Item(Position, e.source, if e.id != "" then e.id else freshId, "",
         if code != "" then code else e.code, if code != "" then code else e.recordCode,
         if original != "" then original else e.originalCode,
         if f.name != "" then f.name else e.name, if f.unit != "" then f.unit else e.unit,
         e.quantity, UserPrice(e, f), UserTotal(e, f), "", "", rawText)
  }

  function BuildItem(found: Option<Item>, f: Fields, rawText: string, freshId: string): Item {
    if found.Some? && IsUserPosition(found.value) then BuildUserPosition(found.value, f, rawText, freshId)
    else BuildPosition(found, f, rawText, freshId)
  }

  function BuildTitle(existing: seq<Item>, kind: Kind, name: string, rawText: string, freshId: string): Item {
    var found := FindItem(existing, (x: Item) => x.kind == kind && x.name == name, 0);
    Item(kind, NoSource, if found.Some? && found.value.id != "" then found.value.id else freshId, "", "", "", "", name, "", 0.0,
         0.0, 0.0, "", "", rawText)
  }

  /** One line of the loop; sofar is what the loop has made of the lines before it. */
  function ReadLine(existing: seq<Item>, sofar: seq<Item>, line: string, freshId: string): Step {
    if IsSkipped(line) then Skip
    else if StartsWith(line, "ПР") then Add(BuildTitle(existing, Subsection, Unescape(line[2..]), line, freshId))
    else if StartsWith(line, "Р") then Add(BuildTitle(existing, Section, Unescape(line[1..]), line, freshId))
    else
      var fields := LineFields(line);
      if |fields| < 2 then Fail
      else match ParseFields(fields)
        case None => Fail
        case Some(f) =>
          var code := RecordLookup.Cipher(f.cipher);
          var byText := FindItem(existing, (x: Item) => x.rawText == line, 0);
          var found := if byText.Some? then byText else NthWithCode(existing, code, PositionsWithCode(sofar, code));
          Add(BuildItem(found, f, line, freshId))
  }

  // --- what a line gives back -----------------------------------------------

  predicate NumberLike(t: string) {
    t != "" && forall i :: 0 <= i < |t| ==> IsDigit(t[i]) || t[i] == '-' || t[i] == '.'
  }

  /** A position code the reader takes for a position. */
  predicate CipherOk(cipher: string) {
    !IsStructuralText(cipher) && cipher != "К" && !StartsWith(cipher, "F(")
  }

  predicate PartOk(s: string) {
    FieldSafe(s) && Trimmed(s)
  }

  /** Fields that survive, a readable quantity, a total printed so that it reads back, a code that is none of the marks. */
  predicate ShownOk(s: Shown, str: Printer) {
    match s
    case Title(_, name) => FieldSafe(name)
    case Line(cipher, quantity, total, name, unit) =>
      && PartOk(cipher) && PartOk(quantity) && PartOk(name) && PartOk(unit) && CipherOk(cipher)
      && quantity != "" && Quantities.QuantityOf(quantity).Some?
      && (total != 0.0 ==> NumberLike(str(total)) && ParseDecimal(str(total)) == Some(total))
  }

  function QuantityValue(quantity: string): real {
    match Quantities.QuantityOf(quantity) case None => 0.0 case Some(x) => x
  }

  /**
    A line of the user's own catalogue comes back as it was shown: a total of zero is not filled
    in from quantity and unit price, and no code from a blank first field.
   */
  predicate KeepsShown(item: Item, str: Printer) {
    var s := ShownOf(item, str);
    IsUserPosition(item) && s.Line? ==>
      && (s.total != 0.0 || QuantityValue(s.quantity) == 0.0 || item.unitPrice == 0.0)
      && (s.cipher != "" || Trim(if item.code != "" then item.code else item.recordCode) == "")
  }

  function TotalText(s: Shown, str: Printer): string
    requires s.Line?
  {
    if s.total != 0.0 then str(s.total) else ""
  }

  /** The fields a line is read as. */
  function FieldsOf(s: Shown, str: Printer): Fields
    requires s.Line?
  {
    Fields(s.cipher, s.quantity, QuantityValue(s.quantity), TotalText(s, str), s.total, s.name, s.unit)
  }

  lemma NumberLikePart(t: string)
    requires NumberLike(t)
    ensures PartOk(t) && !IsIndexMarker(t) && TextNumber(t) == (match ParseDecimal(t) case None => 0.0 case Some(x) => x)
  {
    hide ParseDecimal;
    assert Trimmed(t);
    TrimIsTrimmed(t);
    LocalizedPlain(t);
  }

  lemma EmptyPart()
    ensures PartOk("") && !IsIndexMarker("")
  {
  }

  lemma PartsOk(s: Shown, str: Printer)
    requires s.Line? && ShownOk(s, str)
    ensures forall p :: p in LineParts(s, str) ==> PartOk(p)
  {
    hide PartOk;
    hide ParseDecimal;
    hide CipherOk;
    EmptyPart();
    if s.total != 0.0 { NumberLikePart(str(s.total)); }
  }

  lemma EscapeAllSafe(parts: seq<string>)
    requires forall p :: p in parts ==> FieldSafe(p)
    ensures UnescapeAll(EscapeAll(parts)) == parts
    ensures forall f :: f in EscapeAll(parts) ==> '\'' !in f && '\n' !in f && '\r' !in f
  {
    hide Escape;
    hide Unescape;
    forall i | 0 <= i < |parts|
      ensures Unescape(Escape(parts[i])) == parts[i]
      ensures '\'' !in Escape(parts[i]) && '\n' !in Escape(parts[i]) && '\r' !in Escape(parts[i])
    {
      assert parts[i] in parts;
      SurvivesIff(parts[i]);
      EscapeIsEscaped(parts[i]);
      EscapedIsOneField(parts[i]);
    }
  }

  /** The parts of a written line are read back. */
  lemma BodyFields(s: Shown, str: Printer)
    requires s.Line? && ShownOk(s, str)
    ensures LineFields(BodyOf(s, str)) == LineParts(s, str)
    ensures '\n' !in BodyOf(s, str) && '\r' !in BodyOf(s, str)
  {
    hide ShownOk;
    hide Escape;
    hide Unescape;
    hide FieldSafe;
    hide LineParts;
    var parts := LineParts(s, str);
    PartsOk(s, str);
    assert forall p :: p in parts ==> FieldSafe(p) by { PartsSafe(parts); }
    EscapeAllSafe(parts);
    PartsCount(s, str);
    SplitJoin(EscapeAll(parts), '\'');
    JoinWithout(EscapeAll(parts), '\n');
    JoinWithout(EscapeAll(parts), '\r');
  }

  lemma PartsSafe(parts: seq<string>)
    requires forall p :: p in parts ==> PartOk(p)
    ensures forall p :: p in parts ==> FieldSafe(p)
  {
  }

  lemma PartsCount(s: Shown, str: Printer)
    requires s.Line?
    ensures |LineParts(s, str)| == 2 || |LineParts(s, str)| == 5
  {
  }

  lemma ParseLineParts(s: Shown, str: Printer)
    requires s.Line? && ShownOk(s, str)
    ensures ParseFields(LineParts(s, str)) == Some(FieldsOf(s, str))
  {
    hide ParseDecimal;
    hide CipherOk;
    hide FieldSafe;
    hide Trim;
    hide Quantities.QuantityOf;
    TrimIsTrimmed(s.cipher); TrimIsTrimmed(s.quantity); TrimIsTrimmed(s.name); TrimIsTrimmed(s.unit);
    EmptyPart();
    TrimIsTrimmed("");
    if s.total != 0.0 {
      NumberLikePart(str(s.total));
      TrimIsTrimmed(str(s.total));
    }
  }

  // --- the written line is not taken for something else -----------------------

  /** A body is an escaped code, a quote and more. */
  lemma BodyShape(s: Shown, str: Printer) returns (rest: string)
    requires s.Line? && ShownOk(s, str)
    ensures BodyOf(s, str) == Escaped(s.cipher) + "'" + rest
    ensures rest == "" || !IsSpace(rest[|rest| - 1])
  {
    hide ShownOk;
    hide Escape;
    var parts := LineParts(s, str);
    var escaped := EscapeAll(parts);
    EscapeIsEscaped(s.cipher);
    JoinMore(escaped);
    rest := Join(escaped[1..], '\'');
    assert escaped[0] == Escaped(s.cipher);
    BodyEnd(s, str);
  }

  lemma {:induction false} JoinLast(fields: seq<string>)
    requires fields != []
    ensures var j, last := Join(fields, '\''), fields[|fields| - 1];
      if last != "" then j != "" && j[|j| - 1] == last[|last| - 1]
      else if |fields| > 1 then j != "" && j[|j| - 1] == '\'' else j == ""
  {
    if |fields| > 1 {
      JoinMore(fields);
      JoinLast(fields[1..]);
    }
  }

  lemma LastPartTrimmed(s: Shown, str: Printer)
    requires s.Line? && ShownOk(s, str)
    ensures var parts := LineParts(s, str); Trimmed(parts[|parts| - 1])
  {
    hide CipherOk;
    hide FieldSafe;
    hide ParseDecimal;
  }

  lemma BodyEnd(s: Shown, str: Printer)
    requires s.Line? && ShownOk(s, str)
    ensures var rest := Join(EscapeAll(LineParts(s, str))[1..], '\''); rest == "" || !IsSpace(rest[|rest| - 1])
  {
    hide Escape;
    hide ShownOk;
    hide LineParts;
    hide IsSpace;
    var parts := LineParts(s, str);
    PartsCount(s, str);
    LastPartTrimmed(s, str);
    var last := parts[|parts| - 1];
    var tail := EscapeAll(parts)[1..];
    assert tail[|tail| - 1] == Escape(last);
    EscapeIsEscaped(last);
    if last == "" {
      NothingEscaped();
      QuoteIsNoSpace();
    } else {
      EscapedLast(last);
    }
    JoinLast(tail);
  }

  lemma QuoteIsNoSpace()
    ensures !IsSpace('\'')
  {
  }

  lemma BodyIsPosition(s: Shown, str: Printer)
    requires s.Line? && ShownOk(s, str)
    ensures var body := BodyOf(s, str);
      body != "" && Trimmed(body) && !IsStructuralText(body) && !IsSkipped(body)
  {
    hide BodyOf;
    hide PartOk;
    assert PartOk(s.cipher) && CipherOk(s.cipher);
    var rest := BodyShape(s, str);
    PositionText(s.cipher, rest);
  }

  lemma PositionText(cipher: string, rest: string)
    requires PartOk(cipher) && CipherOk(cipher) && (rest == "" || !IsSpace(rest[|rest| - 1]))
    ensures var body := Escaped(cipher) + "'" + rest;
      body != "" && Trimmed(body) && !IsStructuralText(body) && !IsSkipped(body)
  {
    hide Escaped;
    hide EscapedChar;
    var body := Escaped(cipher) + "'" + rest;
    assert body[|body| - 1] == if rest == "" then '\'' else rest[|rest| - 1];
    assert body[|Escaped(cipher)|] == '\'';
    if cipher == "" {
      NothingEscaped();
    } else {
      EscapedFirst(cipher);
      assert body[0] == Escaped(cipher)[0];
      if |cipher| > 1 {
        FieldSafeTail(cipher);
        EscapedFirst(cipher[1..]);
        assert cipher[0] != '\\' && cipher[0] != '\n' ==> body[1] == Escaped(cipher[1..])[0];
      } else {
        NothingEscaped();
        assert cipher[1..] == "";
        assert cipher[0] != '\\' && cipher[0] != '\n' ==> body[1] == '\'';
        assert cipher == [cipher[0]];
      }
    }
  }

  lemma NothingEscaped()
    ensures Escaped("") == ""
  {
  }

  /** A written position line is read as its own fields, by the reader and from the raw text. */
  lemma ParseRawBody(s: Shown, str: Printer)
    requires s.Line? && ShownOk(s, str)
    ensures ParseRaw(BodyOf(s, str)) == Some(FieldsOf(s, str))
  {
    hide ShownOk;
    hide BodyOf;
    hide ParseFields;
    hide LineFields;
    BodyIsPosition(s, str);
    TrimIsTrimmed(BodyOf(s, str));
    BodyFields(s, str);
    PartsCount(s, str);
    ParseLineParts(s, str);
  }

  /** Two positions with the same line show the same. */
  lemma BodyInjective(s: Shown, t: Shown, str: Printer)
    requires s.Line? && t.Line? && ShownOk(s, str) && ShownOk(t, str) && BodyOf(s, str) == BodyOf(t, str)
    ensures s == t
  {
    hide ShownOk;
    hide BodyOf;
    hide ParseRaw;
    ParseRawBody(s, str);
    ParseRawBody(t, str);
  }
}

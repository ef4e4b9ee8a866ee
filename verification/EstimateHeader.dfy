/**
  The title lines of an estimate in its text form (web/app.js): header, construction, settings
  and closing line, written and read back.
 */
module EstimateHeader {
  import opened Text
  import opened Numbers
  import opened EscapedText
  import opened Wrappers
  import QuantityTokens

  datatype Result<+T> = Ok(value: T) | Err

  /** parseEstimateTextNumber */
  function TextNumber(value: string): real {
    match QuantityTokens.ParseLocalized(value)
    case None => 0.0
    case Some(x) => x
  }

  function FieldAt(fields: seq<string>, i: nat): string {
    if i < |fields| then fields[i] else ""
  }

  /** A field of the title lines, which are not escaped. */
  predicate LineSafe(s: string) {
    '\'' !in s && '\n' !in s
  }

  // --- header line ----------------------------------------------------------

  datatype Header = Header(numericId: int, documentSet: string, flags: string, district: string)

  function HeaderFields(h: Header): seq<string> {
    [NumberText(Decimal(10 * h.numericId, 0)), h.documentSet, h.flags, "", h.district, "", "", "", ""]
  }

  /** serializeSourceDataEstimateHeaderLine, without the closing star */
  function HeaderBody(h: Header): string {
    "Э" + Join(HeaderFields(h), '\'')
  }

  function DigitRun(s: string): (k: nat)
    ensures k <= |s|
    ensures forall i :: 0 <= i < k ==> IsDigit(s[i])
    ensures k < |s| ==> !IsDigit(s[k])
  {
    if s == "" || !IsDigit(s[0]) then 0 else 1 + DigitRun(s[1..])
  }

  predicate LineTerminator(c: char) {
    c == '\n' || c == '\r' || c == '\U{2028}' || c == '\U{2029}'
  }

  predicate OnOneLine(s: string) {
    forall i :: 0 <= i < |s| ==> !LineTerminator(s[i])
  }

  /** Digits, four quotes, the district, five quotes: the older header. */
  predicate IsLegacyBody(body: string) {
    var k := DigitRun(body);
    && k > 0 && |body| >= k + 9
    && body[k..k + 4] == "''''" && body[|body| - 5..] == "'''''"
    && OnOneLine(body[k + 4..|body| - 5])
  }

  function HeaderId(text: string): int {
    var id := (TextNumber(text) / 10.0).Floor;
    if id > 0 then id else 1
  }

  /** parseSourceDataEstimateHeaderLine */
  function ParseHeader(line: string): Result<Header> {
    if !StartsWith(line, "Э") then Err
    else
      var body := line[1..];
      if IsLegacyBody(body) then
        var k := DigitRun(body);
        Ok(Header(HeaderId(Trim(body[..k])), "", "", body[k + 4..|body| - 5]))
      else
        var fields := Split(body, '\'');
        Ok(Header(HeaderId(FieldAt(fields, 0)), FieldAt(fields, 1), FieldAt(fields, 2), FieldAt(fields, 4)))
  }

  predicate HeaderSafe(h: Header) {
    LineSafe(h.documentSet) && LineSafe(h.flags) && LineSafe(h.district)
  }

  lemma IdText(n: int)
    ensures var t := NumberText(Decimal(10 * n, 0));
      && t != "" && ParseDecimal(t) == Some((10 * n) as real)
      && (forall i :: 0 <= i < |t| ==> IsDigit(t[i]) || t[i] == '-')
  {
    hide ParseDecimal;
    hide DigitsText;
    var d := Decimal(10 * n, 0);
    NumberTextRoundTrip(d);
    assert d.Value() == (10 * n) as real by { assert Pow10(0) == 1.0; }
    DigitsTextValue(if d.mantissa < 0 then -d.mantissa else d.mantissa, 1);
  }

  /** A number text without spaces and commas is read as it stands. */
  lemma LocalizedPlain(t: string)
    requires t != "" && forall i :: 0 <= i < |t| ==> !IsSpace(t[i]) && t[i] != ','
    ensures QuantityTokens.ParseLocalized(t) == ParseDecimal(t)
  {
    hide ParseDecimal;
    QuantityTokens.StripTrim(t);
    QuantityTokens.StripNothing(t);
    IndexOfCharNone(t, ',');
  }

  lemma HeaderIdReadBack(n: int)
    ensures HeaderId(NumberText(Decimal(10 * n, 0))) == if n > 0 then n else 1
  {
    hide NumberText;
    hide ParseDecimal;
    IdText(n);
    LocalizedPlain(NumberText(Decimal(10 * n, 0)));
    assert (10 * n) as real / 10.0 == n as real;
  }

  lemma HeaderFieldsSafe(h: Header)
    requires HeaderSafe(h)
    ensures forall f :: f in HeaderFields(h) ==> LineSafe(f)
  {
  }

  /** The five title parts with four quotes after the district. */
  lemma HeaderShape(h: Header)
    ensures var id := NumberText(Decimal(10 * h.numericId, 0));
      Join(HeaderFields(h), '\'') == id + "'" + h.documentSet + "'" + h.flags + "''" + h.district + "''''"
  {
    hide NumberText;
    var f := HeaderFields(h);
    JoinTwo(f[7..]);
    JoinMore(f[6..]); JoinMore(f[5..]); JoinMore(f[4..]); JoinMore(f[3..]); JoinMore(f[2..]); JoinMore(f[1..]); JoinMore(f);
  }

  lemma JoinTwo(f: seq<string>)
    requires |f| == 2
    ensures Join(f, '\'') == f[0] + "'" + f[1]
  {
  }

  lemma JoinMore(f: seq<string>)
    requires |f| >= 2
    ensures Join(f, '\'') == f[0] + "'" + Join(f[1..], '\'')
  {
  }

  lemma {:induction false} JoinWithout(fields: seq<string>, c: char)
    requires fields != [] && c != '\'' && forall f :: f in fields ==> c !in f
    ensures c !in Join(fields, '\'')
  {
    assert fields[0] in fields;
    if |fields| > 1 {
      JoinMore(fields);
      JoinWithout(fields[1..], c);
    }
  }

  lemma LegacyQuotes(body: string)
    ensures var k := DigitRun(body);
      IsLegacyBody(body) ==> |body| >= k + 9 && body[k] == body[k + 1] == body[k + 2] == body[|body| - 5] == '\''
  {
    if IsLegacyBody(body) {
      var k := DigitRun(body);
      var first, last := body[k..k + 4], body[|body| - 5..];
      assert first[0] == first[1] == first[2] == '\'' && last[0] == '\'';
    }
  }

  lemma NotLegacyShape(id: string, set_: string, flags: string, district: string)
    requires id != "" && forall i :: 0 <= i < |id| ==> IsDigit(id[i]) || id[i] == '-'
    requires '\'' !in set_ && '\'' !in flags && '\'' !in district
    ensures !IsLegacyBody(id + "'" + set_ + "'" + flags + "''" + district + "''''")
  {
    hide IsLegacyBody;
    hide DigitRun;
    var s := id + "'" + set_ + "'" + flags + "''" + district + "''''";
    var k := DigitRun(s);
    LegacyQuotes(s);
    assert s[|id|] == '\'' && forall i :: 0 <= i < |id| ==> s[i] == id[i];
    if k == |id| {
      if set_ != "" {
        assert s[k + 1] == set_[0];
      } else if flags != "" {
        assert s[k + 2] == flags[0];
      } else if district != "" {
        assert s[|s| - 5] == district[|district| - 1];
      }
    }
  }

  /** The older header is never read into what is written. */
  lemma NeverLegacy(h: Header)
    requires HeaderSafe(h)
    ensures !IsLegacyBody(HeaderBody(h)[1..])
  {
    hide IsLegacyBody;
    hide NumberText;
    HeaderShape(h);
    IdText(h.numericId);
    NotLegacyShape(NumberText(Decimal(10 * h.numericId, 0)), h.documentSet, h.flags, h.district);
    assert HeaderBody(h)[1..] == Join(HeaderFields(h), '\'');
  }

  /** A header without quotes is read back, and its number when it is positive. */
  lemma HeaderRoundTrip(h: Header)
    requires HeaderSafe(h)
    ensures ParseHeader(HeaderBody(h)) == Ok(h.(numericId := if h.numericId > 0 then h.numericId else 1))
  {
    hide IsLegacyBody;
    hide NumberText;
    hide HeaderId;
    NeverLegacy(h);
    HeaderFieldsSafe(h);
    SplitJoin(HeaderFields(h), '\'');
    assert HeaderBody(h)[1..] == Join(HeaderFields(h), '\'');
    HeaderIdReadBack(h.numericId);
  }

  // --- construction line ----------------------------------------------------

  datatype Construction = Construction(constructionName: string, constructionCode: string, objectCode: string,
                                       objectName: string, chapterNo: string, code: string, title: string)

  function ConstructionFields(c: Construction): seq<string> {
    ["", "", c.constructionName, c.constructionCode, c.objectCode, c.objectName, "", c.chapterNo, c.code, c.title,
     "", "", ""]
  }

  function ConstructionBody(c: Construction): string {
    "Ю" + Join(ConstructionFields(c), '\'')
  }

  function ParseConstruction(line: string): Result<Construction> {
    if !StartsWith(line, "Ю") then Err
    else
      var f := Split(line[1..], '\'');
      Ok(Construction(FieldAt(f, 2), FieldAt(f, 3), FieldAt(f, 4), FieldAt(f, 5), FieldAt(f, 7), FieldAt(f, 8),
                      FieldAt(f, 9)))
  }

  predicate ConstructionSafe(c: Construction) {
    forall f :: f in ConstructionFields(c) ==> LineSafe(f)
  }

  lemma ConstructionRoundTrip(c: Construction)
    requires ConstructionSafe(c)
    ensures ParseConstruction(ConstructionBody(c)) == Ok(c)
  {
    SplitJoin(ConstructionFields(c), '\'');
    assert ConstructionBody(c)[1..] == Join(ConstructionFields(c), '\'');
  }

  // --- closing line ---------------------------------------------------------

  /** serializeSourceDataClosingLine */
  function ClosingBody(bim: string): string {
    if bim != "" then "К'" + Escape(bim) else "К"
  }

  /** What the search from the last line finds in a closing line. */
  function ParseClosing(line: string): string
    requires StartsWith(line, "К")
  {
    if line == "К" then ""
    else
      var f := Split(line[1..], '\'');
      if FieldAt(f, 1) != "" then FieldAt(f, 1) else FieldAt(f, 0)
  }

  lemma ClosingOf(field: string)
    requires '\'' !in field && field != ""
    ensures ParseClosing("К'" + field) == field
  {
    ClosingField(field);
    assert ("К'" + field)[1..] == "'" + field;
  }

  lemma ClosingReads(bim: string)
    requires '\'' !in bim
    ensures ParseClosing(ClosingBody(bim)) == Escaped(bim)
  {
    hide Escape;
    hide Split;
    EscapeIsEscaped(bim);
    if bim != "" {
      EscapedIsOneField(bim);
      EscapedHead(bim);
      ClosingOf(Escaped(bim));
    }
  }

  /** The closing setting is escaped when written and not unescaped when read. */
  lemma ClosingRoundTripIff(bim: string)
    ensures ParseClosing(ClosingBody(bim)) == bim <==> Plain(bim)
  {
    hide ParseClosing;
    hide ClosingBody;
    if '\'' in bim {
      ClosingQuoteFree(bim);
    } else {
      ClosingReads(bim);
      if Plain(bim) { PlainStays(bim); } else { EscapedDiffers(bim); }
    }
  }

  lemma ClosingField(field: string)
    requires '\'' !in field
    ensures Split("'" + field, '\'') == ["", field]
  {
  }

  lemma ClosingQuoteFree(bim: string)
    ensures bim != "" ==> '\'' !in ParseClosing(ClosingBody(bim))
  {
    hide Escape;
    SplitQuoteFree(ClosingBody(bim)[1..]);
  }

  lemma {:induction false} SplitQuoteFree(s: string)
    ensures forall f :: f in Split(s, '\'') ==> '\'' !in f
    decreases |s|
  {
    var i := IndexOfChar(s, '\'');
    if i < |s| { SplitQuoteFree(s[i + 1..]); }
  }

  /** Escaping leaves no line end and doubles every backslash. */
  lemma EscapedDiffers(s: string)
    requires !Plain(s) && '\'' !in s
    ensures Escaped(s) != s && (s != "" ==> Escaped(s) != "")
  {
    EscapedIsOneField(s);
    if '\n' !in s && '\r' !in s {
      CountCharZeroIff(s, '\\');
      EscapedLength(s);
    }
  }

  lemma {:induction false} EscapedLength(s: string)
    requires '\'' !in s && '\n' !in s && '\r' !in s
    ensures |Escaped(s)| == |s| + CountChar(s, '\\')
  {
    if s != "" { EscapedLength(s[1..]); }
  }
}

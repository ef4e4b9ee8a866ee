/**
  The settings line "F(49)'key=value'..." of an estimate's text (web/app.js): finding the price
  set, and putting it into an existing line without losing the other settings.
 */
module EstimateConfig {
  import opened Text
  import opened EscapedText
  import opened EstimateHeader
  import opened Wrappers
  import Numbers

  const SET_KEY := "наборФГИС"
  const SET_KEY_LATIN := "fgisSetId"
  const FORMAT_CODE := "49"

  datatype Settings = NoMatch | Settings(format: string, rest: string)

  /** /^F\((\d+)\)(.*)$/ */
  function MatchSettings(line: string): Settings {
    if !StartsWith(line, "F(") then NoMatch
    else
      var t := line[2..];
      var k := DigitRun(t);
      if k > 0 && k < |t| && t[k] == ')' && OnOneLine(t[k + 1..]) then Settings(t[..k], t[k + 1..]) else NoMatch
  }

  // --- finding the set ------------------------------------------------------

  /** Case folding of the regular expression's i and u flags, as far as the letters of the two names go. */
  function Fold(c: char): char {
    if 'A' <= c <= 'Z' || 'А' <= c <= 'Я' then (c as int + 32) as char
    else if c == '\U{017F}' then 's'
    else if c == '\U{1C82}' then 'о'
    else if c == '\U{1C83}' then 'с'
    else c
  }

  predicate SameName(s: string, name: string) {
    |s| == |name| && forall i :: 0 <= i < |s| ==> Fold(s[i]) == Fold(name[i])
  }

  predicate NamesSet(key: string) {
    SameName(key, SET_KEY) || SameName(key, SET_KEY_LATIN)
  }

  /** What [^'*]+ can take of a field. */
  function BeforeStar(s: string): string {
    s[..IndexOfChar(s, '*')]
  }

  /** The set that one field between quotes gives, if the pattern matches in it. */
  function FieldSet(field: string): Option<string> {
    var eq := IndexOfChar(field, '=');
    if eq < |field| && NamesSet(Trim(field[..eq])) && BeforeStar(field[eq + 1..]) != ""
    then Some(Trim(BeforeStar(field[eq + 1..]))) else None
  }

  /** /(?:^|')\s*(?:наборФГИС|fgisSetId)\s*=\s*([^'*]+)/iu: the first field it matches in */
  function NamedSet(fields: seq<string>): string {
    if fields == [] then ""
    else match FieldSet(fields[0])
      case Some(id) => id
      case None => NamedSet(fields[1..])
  }

  /**
    parseSourceDataFgisSetFromLine. Its pattern has one group and its map of settings is filled
    from the second, so the map stays empty and only the search by name is left.
   */
  function ParseSetId(line: string): string {
    match MatchSettings(Trim(line))
    case NoMatch => ""
    case Settings(_, rest) => NamedSet(Split(rest, '\''))
  }

  // --- putting a set in -----------------------------------------------------

  /** The key of a "key=value" field, or nothing. */
  function ParamKey(field: string): string {
    var eq := IndexOfChar(field, '=');
    if eq == |field| then "" else Trim(field[..eq])
  }

  function FieldsOf(rest: string): seq<string> {
    UnescapeAll(Split(rest, '\''))
  }

  predicate OtherParam(field: string) {
    var key := ParamKey(field);
    key != "" && key != SET_KEY && key != SET_KEY_LATIN
  }

  function OtherParams(fields: seq<string>): seq<string> {
    if fields == [] then []
    else (if OtherParam(fields[0]) then [fields[0]] else []) + OtherParams(fields[1..])
  }

  function SetField(id: string): string {
    SET_KEY + "=" + id
  }

  function SettingsText(format: string, fields: seq<string>): string {
    "F(" + format + ")" + if fields == [] then "" else "'" + Join(EscapeAll(fields), '\'')
  }

  /** upsertSourceDataF49ConfigLine */
  function Upsert(line: string, id: string): string {
    match MatchSettings(line)
    case NoMatch => line
    case Settings(format, rest) =>
      var setId := if id != "" then id else ParseSetId(line);
      SettingsText(format, (if setId != "" then [SetField(setId)] else []) + OtherParams(FieldsOf(rest)))
  }

  datatype Config = Config(raw: string, setId: string)

  /** hydrateEstimateSourceDataFgisSet with applyFgisSetToEstimateSourceData */
  function Hydrate(c: Config): Config {
    var setId := Trim(if c.setId != "" then c.setId else ParseSetId(c.raw));
    if setId == "" then c
    else if StartsWith(c.raw, "F(") then Config(Upsert(c.raw, setId), setId)
    else Config("F(" + FORMAT_CODE + ")'" + SetField(setId), setId)
  }

  /** serializeSourceDataConfigLine, without the closing star */
  function ConfigBody(c: Config): string {
    if StartsWith(c.raw, "F(") then Upsert(c.raw, c.setId)
    else "F(" + FORMAT_CODE + ")" + if c.setId != "" then "'" + SET_KEY + "=" + Escape(c.setId) else ""
  }

  /** parseSourceDataConfigLine with the raw line kept */
  function ParseConfig(line: string): Result<Config> {
    if MatchSettings(line).NoMatch? then Err else Ok(Config(line, ParseSetId(line)))
  }

  // --- canonical settings lines ---------------------------------------------

  /** A format code, a price set and other settings in order, as they are before they are escaped. */
  datatype Canon = Canon(format: string, setId: string, others: seq<string>)

  predicate NoSeparator(s: string) {
    '\U{2028}' !in s && '\U{2029}' !in s
  }

  /** A setting that comes from a line. */
  predicate SettingSafe(s: string) {
    FieldSafe(s) && NoSeparator(s)
  }

  predicate SetSafe(id: string) {
    '\'' !in id && OnOneLine(id) && Trimmed(id)
  }

  predicate CanonOk(c: Canon) {
    && c.format != "" && Numbers.AllDigits(c.format) && SetSafe(c.setId)
    && forall f :: f in c.others ==> SettingSafe(f) && OtherParam(f)
  }

  function CanonFields(c: Canon): seq<string> {
    (if c.setId != "" then [SetField(c.setId)] else []) + c.others
  }

  /** The fields as they stand in the line. */
  function CanonWritten(c: Canon): seq<string> {
    EscapeAll(CanonFields(c))
  }

  function CanonText(c: Canon): string {
    SettingsText(c.format, CanonFields(c))
  }

  /** A set keyed as in a settings field, whatever its text. */
  lemma KeyedSet(t: string)
    ensures ParamKey(SetField(t)) == SET_KEY && !OtherParam(SetField(t))
    ensures FieldSet(SetField(t)) == if BeforeStar(t) == "" then None else Some(Trim(BeforeStar(t)))
  {
    hide Trim;
    hide Fold;
    hide BeforeStar;
    var f := SetField(t);
    IndexOfCharFirst(SET_KEY, '=', t);
    assert f == SET_KEY + ['='] + t;
    assert f[..|SET_KEY|] == SET_KEY && f[|SET_KEY| + 1..] == t;
    assert Trimmed(SET_KEY);
    TrimIsTrimmed(SET_KEY);
  }

  /** The field of a set is written with the set escaped, and unescaping it leaves the key. */
  lemma SetFieldWritten(id: string)
    ensures Escape(SetField(id)) == SetField(Escape(id))
    ensures Unescape(SetField(id)) == SetField(Unescape(id))
  {
    hide Escape;
    hide Unescape;
    var front := SET_KEY + "=";
    assert Plain(front);
    EscapeIsEscaped(SetField(id));
    EscapeIsEscaped(id);
    EscapedFront(front, id);
    UnescapeFront(front, id);
  }

  predicate WrittenSafe(f: string) {
    '\'' !in f && OnOneLine(f)
  }

  lemma EscapeSafe(f: string)
    requires '\'' !in f && NoSeparator(f)
    ensures WrittenSafe(Escape(f))
  {
    hide Escape;
    EscapeIsEscaped(f);
    EscapedIsOneField(f);
    EscapedChars(f, '\U{2028}');
    EscapedChars(f, '\U{2029}');
    var e := Escaped(f);
    forall i | 0 <= i < |e| ensures !LineTerminator(e[i]) { assert e[i] in e; }
  }

  lemma OneLineNoSeparator(s: string)
    requires OnOneLine(s)
    ensures NoSeparator(s)
  {
  }

  lemma WrittenFields(c: Canon)
    requires CanonOk(c)
    ensures forall f :: f in CanonWritten(c) ==> WrittenSafe(f)
  {
    hide Escape;
    hide OtherParam;
    hide NoBreakLetter;
    OneLineNoSeparator(c.setId);
    var fields := CanonFields(c);
    forall i | 0 <= i < |fields| ensures WrittenSafe(Escape(fields[i])) {
      if c.setId == "" || i > 0 {
        assert fields[i] in c.others;
      } else {
        SetFieldPlain(c.setId);
      }
      EscapeSafe(fields[i]);
    }
  }

  lemma SetFieldPlain(id: string)
    requires '\'' !in id && NoSeparator(id)
    ensures '\'' !in SetField(id) && NoSeparator(SetField(id))
  {
  }

  lemma {:induction false} JoinOnOneLine(fields: seq<string>)
    requires fields != [] && forall f :: f in fields ==> WrittenSafe(f)
    ensures OnOneLine(Join(fields, '\''))
  {
    assert fields[0] in fields && WrittenSafe(fields[0]);
    if |fields| > 1 {
      JoinMore(fields);
      JoinOnOneLine(fields[1..]);
    }
  }

  lemma {:induction false} FilterCanon(fields: seq<string>)
    requires forall f :: f in fields ==> OtherParam(f)
    ensures OtherParams(fields) == fields
  {
    hide OtherParam;
    if fields != [] {
      FilterCanon(fields[1..]);
      assert OtherParam(fields[0]);
    }
  }

  function CanonRest(c: Canon): string {
    if CanonWritten(c) == [] then "" else "'" + Join(CanonWritten(c), '\'')
  }

  lemma MatchText(format: string, rest: string)
    requires format != "" && Numbers.AllDigits(format) && OnOneLine(rest)
    ensures MatchSettings("F(" + format + ")" + rest) == Settings(format, rest)
  {
    hide DigitRun;
    var t := format + ")" + rest;
    assert ("F(" + format + ")" + rest)[2..] == t;
    FormatRun(format, ")" + rest);
    assert t == format + (")" + rest);
    assert t[..|format|] == format && t[|format| + 1..] == rest;
  }

  lemma FormatRun(format: string, rest: string)
    requires Numbers.AllDigits(format) && rest != "" && !Numbers.IsDigit(rest[0])
    ensures DigitRun(format + rest) == |format|
  {
    hide DigitRun;
    var s := format + rest;
    var k := DigitRun(s);
    assert s[|format|] == rest[0];
    assert forall i :: 0 <= i < |format| ==> s[i] == format[i];
  }

  lemma SplitFields(fields: seq<string>)
    requires fields != [] && forall f :: f in fields ==> WrittenSafe(f)
    ensures Split("'" + Join(fields, '\''), '\'') == [""] + fields
  {
    var all := [""] + fields;
    forall f | f in all ensures '\'' !in f {
      if f != "" { assert f in fields && WrittenSafe(f); }
    }
    SplitJoin(all, '\'');
    JoinMore(all);
    assert all[1..] == fields;
    assert "" + "'" + Join(fields, '\'') == "'" + Join(fields, '\'');
  }

  lemma NothingSplit()
    ensures Split("", '\'') == [""]
  {
  }

  /** What the settings line gives when it is taken apart. */
  lemma MatchCanon(c: Canon)
    requires CanonOk(c)
    ensures CanonText(c) == "F(" + c.format + ")" + CanonRest(c)
    ensures MatchSettings(CanonText(c)) == Settings(c.format, CanonRest(c))
    ensures Split(CanonRest(c), '\'') == [""] + CanonWritten(c)
  {
    hide MatchSettings;
    hide SettingSafe;
    hide OtherParam;
    hide WrittenSafe;
    hide Escape;
    WrittenFields(c);
    if CanonWritten(c) == [] {
      NothingSplit();
    } else {
      JoinOnOneLine(CanonWritten(c));
      SplitFields(CanonWritten(c));
    }
    MatchText(c.format, CanonRest(c));
  }

  // --- white space at the end of the line ------------------------------------

  lemma SplitHead(a: string, b: string)
    requires '\'' !in a
    ensures Split(a + ['\''] + b, '\'') == [a] + Split(b, '\'')
  {
    IndexOfCharFirst(a, '\'', b);
    var s := a + ['\''] + b;
    assert s[..|a|] == a && s[|a| + 1..] == b;
  }

  lemma SplitWhole(s: string)
    requires '\'' !in s
    ensures Split(s, '\'') == [s]
  {
    IndexOfCharNone(s, '\'');
  }

  /** One more white space in the last field. */
  lemma {:induction false} SplitSpace(s: string, sp: char)
    requires sp != '\''
    ensures var f := Split(s, '\''); Split(s + [sp], '\'') == f[..|f| - 1] + [f[|f| - 1] + [sp]]
    decreases |s|
  {
    hide Split;
    var i := IndexOfChar(s, '\'');
    if i < |s| {
      var a, b := s[..i], s[i + 1..];
      assert s == a + ['\''] + b && s + [sp] == a + ['\''] + (b + [sp]);
      SplitHead(a, b);
      SplitHead(a, b + [sp]);
      SplitSpace(b, sp);
      var g := Split(b, '\'');
      assert ([a] + g)[..|g|] == [a] + g[..|g| - 1];
    } else {
      SplitWhole(s);
      SplitWhole(s + [sp]);
    }
  }

  function ValueOf(found: Option<string>): string {
    if found.Some? then found.value else ""
  }

  lemma FieldSetSpace(field: string, sp: char)
    requires IsSpace(sp)
    ensures ValueOf(FieldSet(field + [sp])) == ValueOf(FieldSet(field))
  {
    hide Trim;
    hide IsSpace;
    hide NamesSet;
    var eq, g := IndexOfChar(field, '='), field + [sp];
    assert sp != '=' && sp != '*' by { SpaceIsPlain(sp); }
    if eq < |field| {
      assert field == field[..eq] + ['='] + field[eq + 1..];
      assert g == field[..eq] + ['='] + (field[eq + 1..] + [sp]);
      IndexOfCharFirst(field[..eq], '=', field[eq + 1..] + [sp]);
      assert g[..eq] == field[..eq] && g[eq + 1..] == field[eq + 1..] + [sp];
      BeforeStarSpace(field[eq + 1..], sp);
      TrimSpace(BeforeStar(field[eq + 1..]), sp);
      TrimIsTrimmed("");
    } else {
      assert forall j :: 0 <= j < |g| ==> g[j] != '=';
      IndexOfCharNone(g, '=');
    }
  }

  lemma SpaceIsPlain(sp: char)
    requires IsSpace(sp)
    ensures sp != '=' && sp != '*' && sp != '\''
  {
  }

  lemma BeforeStarSpace(s: string, sp: char)
    requires sp != '*'
    ensures BeforeStar(s + [sp]) == if '*' in s then BeforeStar(s) else BeforeStar(s) + [sp]
    ensures '*' !in s ==> BeforeStar(s) == s
  {
    if '*' in s {
      var i := IndexOfChar(s, '*');
      assert s + [sp] == s[..i] + ['*'] + (s[i + 1..] + [sp]);
      IndexOfCharFirst(s[..i], '*', s[i + 1..] + [sp]);
    } else {
      IndexOfCharNone(s, '*');
      IndexOfCharNone(s + [sp], '*');
    }
  }

  lemma {:induction false} NamedSetLast(front: seq<string>, f: string, g: string)
    requires ValueOf(FieldSet(f)) == ValueOf(FieldSet(g))
    ensures NamedSet(front + [f]) == NamedSet(front + [g])
  {
    hide FieldSet;
    if front != [] {
      assert (front + [f])[1..] == front[1..] + [f] && (front + [g])[1..] == front[1..] + [g];
      NamedSetLast(front[1..], f, g);
    }
  }

  lemma {:induction false} NamedSetTrims(s: string)
    ensures NamedSet(Split(TrimRight(s), '\'')) == NamedSet(Split(s, '\''))
  {
    hide FieldSet;
    hide Split;
    if s != "" && IsSpace(s[|s| - 1]) {
      var t, sp := s[..|s| - 1], s[|s| - 1];
      NamedSetTrims(t);
      SpaceIsPlain(sp);
      assert s == t + [sp];
      SplitSpace(t, sp);
      var f := Split(t, '\'');
      FieldSetSpace(f[|f| - 1], sp);
      NamedSetLast(f[..|f| - 1], f[|f| - 1] + [sp], f[|f| - 1]);
      assert f[..|f| - 1] + [f[|f| - 1]] == f;
    }
  }

  lemma {:induction false} TrimRightIsPrefix(s: string)
    ensures TrimRight(s) <= s
  {
    if s != "" && IsSpace(s[|s| - 1]) { TrimRightIsPrefix(s[..|s| - 1]); }
  }

  /** The set is looked for in the fields as they stand in the line. */
  lemma ParseSetIdIs(line: string)
    requires MatchSettings(line).Settings?
    ensures ParseSetId(line) == NamedSet(Split(MatchSettings(line).rest, '\''))
  {
    hide NamedSet;
    hide DigitRun;
    hide Split;
    var format, rest := MatchSettings(line).format, MatchSettings(line).rest;
    var front := "F(" + format + ")";
    assert line == front + rest by { MatchedLine(line); }
    TrimRightJoin(front, rest);
    TrimRightIsPrefix(rest);
    assert !IsSpace(line[0]) && TrimLeft(line) == line;
    MatchedFormat(line);
    MatchText(format, TrimRight(rest));
    NamedSetTrims(rest);
  }

  lemma MatchedLine(line: string)
    requires MatchSettings(line).Settings?
    ensures var m := MatchSettings(line); line == "F(" + m.format + ")" + m.rest
  {
    var t := line[2..];
    assert line == "F(" + t;
  }

  lemma MatchedFormat(line: string)
    requires MatchSettings(line).Settings?
    ensures var m := MatchSettings(line); m.format != "" && Numbers.AllDigits(m.format) && OnOneLine(m.rest)
  {
  }

  // --- the set of a line ------------------------------------------------------

  predicate Subset(s: string, t: string) {
    forall c :: c in s ==> c in t
  }

  lemma {:induction false} TrimLeftSubset(s: string)
    ensures Subset(TrimLeft(s), s)
  {
    if s != "" && IsSpace(s[0]) { TrimLeftSubset(s[1..]); }
  }

  lemma TrimSubset(s: string)
    ensures Subset(Trim(s), s)
  {
    TrimLeftSubset(s);
    TrimRightIsPrefix(TrimLeft(s));
  }

  lemma {:induction false} SplitSubset(s: string)
    ensures forall f :: f in Split(s, '\'') ==> Subset(f, s) && '\'' !in f
    decreases |s|
  {
    var i := IndexOfChar(s, '\'');
    if i < |s| { SplitSubset(s[i + 1..]); }
  }

  lemma FieldSetClean(field: string)
    ensures var id := ValueOf(FieldSet(field)); Subset(id, field) && '*' !in id && Trimmed(id)
  {
    hide Trim;
    hide NamesSet;
    if FieldSet(field).Some? {
      var rest := field[IndexOfChar(field, '=') + 1..];
      TrimSubset(BeforeStar(rest));
      TrimIsTrimmed(BeforeStar(rest));
    }
  }

  lemma {:induction false} NamedSetClean(fields: seq<string>, t: string)
    requires forall f :: f in fields ==> Subset(f, t) && '\'' !in f
    ensures var id := NamedSet(fields); Subset(id, t) && '\'' !in id && '*' !in id && Trimmed(id)
  {
    hide FieldSet;
    if fields != [] {
      assert fields[0] in fields;
      FieldSetClean(fields[0]);
      NamedSetClean(fields[1..], t);
    }
  }

  lemma SubsetOneLine(s: string, t: string)
    requires Subset(s, t) && OnOneLine(t)
    ensures OnOneLine(s)
  {
    forall i | 0 <= i < |s| ensures !LineTerminator(s[i]) { assert s[i] in s && s[i] in t; }
  }

  /** Whatever set a line gives has no quote, no star, no line end and no white space around it. */
  lemma ParsedSetSafe(line: string)
    ensures SetSafe(ParseSetId(line)) && '*' !in ParseSetId(line)
  {
    hide NamedSet;
    hide Trim;
    hide DigitRun;
    var t := Trim(line);
    if MatchSettings(t).Settings? {
      var rest := MatchSettings(t).rest;
      MatchedFormat(t);
      SplitSubset(rest);
      NamedSetClean(Split(rest, '\''), rest);
      SubsetOneLine(NamedSet(Split(rest, '\'')), rest);
    }
  }

  /** A line's settings, unescaped, can be written and read any number of times. */
  lemma FieldsSafe(rest: string)
    requires OnOneLine(rest)
    ensures forall f :: f in FieldsOf(rest) ==> SettingSafe(f)
  {
    hide Unescape;
    hide Split;
    hide FieldSafe;
    var fields := Split(rest, '\'');
    SplitSubset(rest);
    forall i | 0 <= i < |fields| ensures SettingSafe(Unescape(fields[i])) {
      var f := fields[i];
      assert f in fields;
      SubsetOneLine(f, rest);
      OneLineNoSeparator(f);
      assert '\r' !in f by { OneLineNoReturn(f); }
      UnescapedSurvives(f);
      UnescapeChars(f, '\U{2028}');
      UnescapeChars(f, '\U{2029}');
    }
  }

  lemma OneLineNoReturn(s: string)
    requires OnOneLine(s)
    ensures '\r' !in s
  {
  }

  lemma {:induction false} OthersAre(fields: seq<string>)
    ensures forall f :: f in OtherParams(fields) ==> f in fields && OtherParam(f)
  {
    hide OtherParam;
    if fields != [] { OthersAre(fields[1..]); }
  }

  /**
    Putting a set into any settings line: the set first, then every other setting in its order;
    without a set, the one the line names.
   */
  lemma UpsertCanon(line: string, id: string)
    requires MatchSettings(line).Settings? && SetSafe(id)
    ensures var m := MatchSettings(line);
      var c := Canon(m.format, if id != "" then id else NamedSet(Split(m.rest, '\'')), OtherParams(FieldsOf(m.rest)));
      CanonOk(c) && Upsert(line, id) == CanonText(c)
  {
    hide NamedSet;
    hide OtherParam;
    hide SettingSafe;
    hide SettingsText;
    hide Split;
    hide FieldsOf;
    var m := MatchSettings(line);
    MatchedFormat(line);
    FieldsSafe(m.rest);
    OthersAre(FieldsOf(m.rest));
    ParseSetIdIs(line);
    ParsedSetSafe(line);
  }

  // --- writing and reading --------------------------------------------------

  lemma EmptyField()
    ensures ParamKey("") == "" && FieldSet("") == None && Unescape("") == ""
  {
  }

  lemma EscapeAllJoin(a: seq<string>, b: seq<string>)
    ensures EscapeAll(a + b) == EscapeAll(a) + EscapeAll(b)
    ensures UnescapeAll(a + b) == UnescapeAll(a) + UnescapeAll(b)
  {
    hide Escape;
    hide Unescape;
  }

  lemma EscapeOne(f: string)
    ensures EscapeAll([f]) == [Escape(f)] && UnescapeAll([f]) == [Unescape(f)]
  {
    hide Escape;
    hide Unescape;
  }

  lemma BackAll(fields: seq<string>)
    requires forall f :: f in fields ==> SettingSafe(f)
    ensures UnescapeAll(EscapeAll(fields)) == fields
  {
    hide Escape;
    hide Unescape;
    forall i | 0 <= i < |fields| ensures Unescape(Escape(fields[i])) == fields[i] {
      assert fields[i] in fields;
      SurvivesIff(fields[i]);
    }
  }

  lemma SkipFront(f: string, rest: seq<string>)
    ensures !OtherParam(f) ==> OtherParams([f] + rest) == OtherParams(rest)
    ensures FieldSet(f) == None ==> NamedSet([f] + rest) == NamedSet(rest)
    ensures FieldSet(f).Some? ==> NamedSet([f] + rest) == FieldSet(f).value
  {
    hide OtherParam;
    hide FieldSet;
    assert ([f] + rest)[1..] == rest;
  }

  /** The fields of a canonical line, written: the set, if there is one, and the other settings. */
  lemma CanonWrittenIs(c: Canon)
    ensures CanonWritten(c) == (if c.setId != "" then [SetField(Escape(c.setId))] else []) + EscapeAll(c.others)
  {
    hide Escape;
    hide SetField;
    if c.setId != "" {
      SetFieldWritten(c.setId);
      EscapeAllJoin([SetField(c.setId)], c.others);
      EscapeOne(SetField(c.setId));
    } else {
      assert CanonFields(c) == c.others;
    }
  }

  /** The other settings of a written line are the ones it was written from. */
  lemma FilterWritten(c: Canon)
    requires CanonOk(c)
    ensures OtherParams(FieldsOf(CanonRest(c))) == c.others
  {
    hide Escape;
    hide Unescape;
    hide OtherParam;
    hide SettingSafe;
    hide SetField;
    hide MatchSettings;
    MatchCanon(c);
    hide CanonText;
    hide CanonRest;
    CanonWrittenIs(c);
    hide CanonWritten;
    EmptyField();
    NoEmptyParam();
    FilterCanon(c.others);
    BackAll(c.others);
    EscapeOne("");
    EscapeAllJoin([""], CanonWritten(c));
    var back := UnescapeAll(CanonWritten(c));
    SkipFront("", back);
    if c.setId != "" {
      var key := SetField(Escape(c.setId));
      EscapeAllJoin([key], EscapeAll(c.others));
      EscapeOne(key);
      SetFieldWritten(Escape(c.setId));
      KeyedSet(Unescape(Escape(c.setId)));
      SkipFront(Unescape(key), c.others);
    } else {
      assert CanonWritten(c) == EscapeAll(c.others);
    }
  }

  lemma NoEmptyParam()
    ensures !OtherParam("")
  {
  }

  /** The set that reading a written line gives. */
  function ReadBack(c: Canon): string {
    var written := Escape(c.setId);
    if BeforeStar(written) != "" then Trim(BeforeStar(written)) else NamedSet(EscapeAll(c.others))
  }

  lemma ParseSetIdCanon(c: Canon)
    requires CanonOk(c)
    ensures ParseSetId(CanonText(c)) == ReadBack(c)
  {
    hide Escape;
    hide OtherParam;
    hide SettingSafe;
    hide SetField;
    hide FieldSet;
    hide Trim;
    hide BeforeStar;
    MatchCanon(c);
    ParseSetIdIs(CanonText(c));
    hide MatchSettings;
    hide ParseSetId;
    hide CanonText;
    hide CanonRest;
    CanonWrittenIs(c);
    hide CanonWritten;
    EmptyField();
    EscapeNothing();
    SkipFront("", CanonWritten(c));
    if c.setId != "" {
      KeyedSet(Escape(c.setId));
      SkipFront(SetField(Escape(c.setId)), EscapeAll(c.others));
    } else {
      assert CanonWritten(c) == EscapeAll(c.others);
    }
  }

  lemma EscapeNothing()
    ensures Escape("") == "" && BeforeStar("") == ""
  {
  }

  /** Putting a set into a written line replaces the set and keeps format and other settings. */
  lemma UpsertWritten(c: Canon, id: string)
    requires CanonOk(c) && SetSafe(id)
    ensures Upsert(CanonText(c), id) == CanonText(c.(setId := if id != "" then id else ReadBack(c)))
  {
    hide SettingSafe;
    hide OtherParam;
    hide SettingsText;
    hide MatchSettings;
    hide ReadBack;
    hide ParseSetId;
    hide CanonRest;
    hide FieldsOf;
    MatchCanon(c);
    ParseSetIdCanon(c);
    FilterWritten(c);
  }

  /** The set survives: it holds no star and no backslash, and if it is empty no other setting is named like a set. */
  predicate Kept(c: Canon) {
    '*' !in c.setId && '\\' !in c.setId && (c.setId != "" || NamedSet(EscapeAll(c.others)) == "")
  }

  /** A backslash is written twice and read twice. */
  lemma SlashDoubles(id: string)
    requires SetSafe(id) && '\\' in id && '*' !in id
    ensures BeforeStar(Escape(id)) != "" && Trim(BeforeStar(Escape(id))) != id
  {
    hide Escape;
    hide Trim;
    var e := Escaped(id);
    EscapeIsEscaped(id);
    EscapedChars(id, '*');
    IndexOfCharNone(e, '*');
    OneLineNoReturn(id);
    CountCharZeroIff(id, '\\');
    assert '\n' !in id;
    EscapedLength(id);
    EscapedFirst(id);
    EscapedLast(id);
    assert Trimmed(e) && |e| > |id|;
    TrimIsTrimmed(e);
    assert BeforeStar(e) == e;
  }

  lemma ReadsItself(c: Canon)
    requires CanonOk(c)
    ensures ReadBack(c) == c.setId <==> Kept(c)
  {
    hide Escape;
    hide Trim;
    hide SettingSafe;
    hide OtherParam;
    EscapeNothing();
    if '*' in c.setId {
      NamedSetStar(EscapeAll(c.others));
      BeforeStarClean(Escape(c.setId));
    } else if '\\' in c.setId {
      SlashDoubles(c.setId);
    } else {
      OneLineNoReturn(c.setId);
      assert '\n' !in c.setId;
      PlainUnescapes(c.setId);
      IndexOfCharNone(c.setId, '*');
      assert BeforeStar(c.setId) == c.setId;
      TrimIsTrimmed(c.setId);
    }
  }

  lemma BeforeStarClean(s: string)
    ensures '*' !in Trim(BeforeStar(s))
  {
    TrimSubset(BeforeStar(s));
  }

  lemma {:induction false} NamedSetStar(fields: seq<string>)
    ensures '*' !in NamedSet(fields)
  {
    hide FieldSet;
    if fields != [] {
      FieldSetClean(fields[0]);
      NamedSetStar(fields[1..]);
    }
  }

  /** The state of an estimate's settings: no line, or one that was read or written; and a set of one line without quotes. */
  predicate ConfigOk(c: Config) {
    SetSafe(c.setId) && (StartsWith(c.raw, "F(") ==> MatchSettings(c.raw).Settings?)
  }

  /** What is written: the estimate's own set, or the set its line names; and the line's other settings. */
  function Written(c: Config): Canon {
    var setId := if c.setId != "" then c.setId else ParseSetId(c.raw);
    match MatchSettings(c.raw)
    case NoMatch => Canon(FORMAT_CODE, setId, [])
    case Settings(format, rest) => Canon(format, setId, OtherParams(FieldsOf(rest)))
  }

  lemma WrittenOk(c: Config)
    requires ConfigOk(c)
    ensures CanonOk(Written(c))
    ensures MatchSettings(c.raw).Settings? ==> Upsert(c.raw, Written(c).setId) == CanonText(Written(c))
    ensures MatchSettings(c.raw).Settings? && Written(c).setId == "" ==> Upsert(c.raw, "") == CanonText(Written(c))
  {
    hide NamedSet;
    hide OtherParam;
    hide SettingSafe;
    hide Upsert;
    hide CanonText;
    hide Split;
    hide FieldsOf;
    ParsedSetSafe(c.raw);
    if MatchSettings(c.raw).Settings? {
      ParseSetIdIs(c.raw);
      UpsertCanon(c.raw, Written(c).setId);
    }
  }

  lemma SetOnlyText(id: string)
    ensures CanonText(Canon(FORMAT_CODE, id, []))
            == "F(" + FORMAT_CODE + ")" + if id != "" then "'" + SetField(Escape(id)) else ""
  {
    hide Escape;
    var c := Canon(FORMAT_CODE, id, []);
    CanonWrittenIs(c);
    if id != "" {
      assert EscapeAll([]) == [];
      assert CanonWritten(c) == [SetField(Escape(id))];
    }
  }

  /** The line made of a set alone holds it as it is, and is completed with the set escaped. */
  lemma SetOnlyWritten(id: string)
    requires SetSafe(id)
    ensures CanonOk(Canon(FORMAT_CODE, id, []))
    ensures id != "" ==> Upsert("F(" + FORMAT_CODE + ")'" + SetField(id), id) == CanonText(Canon(FORMAT_CODE, id, []))
  {
    hide Escape;
    hide SetField;
    hide MatchSettings;
    hide SetSafe;
    hide CanonText;
    hide Upsert;
    hide FieldsOf;
    if id != "" {
      RawSetLine(id);
      UpsertCanon("F(" + FORMAT_CODE + ")'" + SetField(id), id);
    }
  }

  lemma RawSetLine(id: string)
    requires SetSafe(id) && id != ""
    ensures var m := MatchSettings("F(" + FORMAT_CODE + ")'" + SetField(id));
      m.Settings? && m.format == FORMAT_CODE && OtherParams(FieldsOf(m.rest)) == []
  {
    hide Unescape;
    hide OtherParam;
    var f := SetField(id);
    RawSetField(id);
    SplitFields([f]);
    assert Join([f], '\'') == f;
    hide SetField;
    QuotedOneLine(f);
    MatchText(FORMAT_CODE, "'" + f);
    assert "F(" + FORMAT_CODE + ")" + ("'" + f) == "F(" + FORMAT_CODE + ")'" + f;
    hide MatchSettings;
    EmptyField();
    NoEmptyParam();
    SetFieldWritten(id);
    KeyedSet(Unescape(id));
    EscapeAllJoin([""], [f]);
    EscapeOne("");
    EscapeOne(f);
    SkipFront("", [Unescape(f)]);
    SkipFront(Unescape(f), []);
    assert [Unescape(f)] + [] == [Unescape(f)];
  }

  lemma RawSetField(id: string)
    requires SetSafe(id)
    ensures WrittenSafe(SetField(id))
  {
  }

  lemma QuotedOneLine(f: string)
    requires OnOneLine(f)
    ensures OnOneLine("'" + f)
  {
  }

  /** Completing the settings and writing them gives the line with the set and the other settings. */
  lemma ConfigWritten(c: Config)
    requires ConfigOk(c)
    ensures CanonOk(Written(c)) && Hydrate(c).setId == Written(c).setId
    ensures ConfigBody(Hydrate(c)) == CanonText(Written(c))
  {
    hide CanonOk;
    hide Upsert;
    hide ParseSetId;
    hide CanonText;
    hide MatchSettings;
    hide Trim;
    hide SetField;
    hide Escape;
    WrittenOk(c);
    SafeParts(Written(c));
    var w := Written(c);
    TrimIsTrimmed(w.setId);
    StartsF(w);
    UpsertWritten(w, w.setId);
    assert w.(setId := w.setId) == w;
    if !StartsWith(c.raw, "F(") {
      NoMatchWritten(c);
      SetOnlyText(w.setId);
      SetOnlyWritten(w.setId);
      KeyFirst(Escape(w.setId));
    }
  }

  lemma KeyFirst(t: string)
    ensures "'" + SET_KEY + "=" + t == "'" + SetField(t)
  {
  }

  lemma SafeParts(c: Canon)
    requires CanonOk(c)
    ensures SetSafe(c.setId) && Trimmed(c.setId)
  {
  }

  lemma NoMatchWritten(c: Config)
    requires !StartsWith(c.raw, "F(")
    ensures MatchSettings(c.raw).NoMatch?
    ensures Written(c) == Canon(FORMAT_CODE, if c.setId != "" then c.setId else ParseSetId(c.raw), [])
  {
  }

  lemma StartsF(c: Canon)
    ensures StartsWith(CanonText(c), "F(")
  {
  }

  lemma WrittenAgain(w: Canon)
    requires CanonOk(w)
    ensures ConfigOk(Config(CanonText(w), w.setId))
    ensures Written(Config(CanonText(w), w.setId)) == w.(setId := if w.setId != "" then w.setId else ReadBack(w))
  {
    hide SettingSafe;
    hide OtherParam;
    hide MatchSettings;
    hide CanonText;
    hide CanonRest;
    hide FieldsOf;
    hide ReadBack;
    hide ParseSetId;
    MatchCanon(w);
    ParseSetIdCanon(w);
    FilterWritten(w);
  }

  /**
    The settings line is always read back; with the same set exactly when the set is kept. Then
    the line is written the same again.
   */
  lemma ConfigRoundTripIff(c: Config)
    requires ConfigOk(c)
    ensures var line := ConfigBody(Hydrate(c));
      && ParseConfig(line).Ok? && ParseConfig(line).value.raw == line
      && (ParseConfig(line).value.setId == Hydrate(c).setId <==> Kept(Written(c)))
      && (Kept(Written(c)) ==> ConfigBody(Hydrate(ParseConfig(line).value)) == line)
      && (c.setId != "" ==> Hydrate(c).setId == c.setId)
  {
    hide ConfigBody;
    hide Hydrate;
    hide CanonText;
    hide MatchSettings;
    hide ParseSetId;
    hide CanonOk;
    hide ReadBack;
    hide Kept;
    hide ConfigOk;
    var w := Written(c);
    ConfigWritten(c);
    MatchCanon(w);
    ParseSetIdCanon(w);
    ReadsItself(w);
    var back := Config(CanonText(w), w.setId);
    WrittenAgain(w);
    ConfigWritten(back);
  }

  /** A star is not read: such a set comes back cut. */
  lemma StarIsLost()
    ensures var c := Config("", "5*");
      ConfigOk(c) && ParseConfig(ConfigBody(Hydrate(c))).Ok?
      && ParseConfig(ConfigBody(Hydrate(c))).value.setId != Hydrate(c).setId
  {
    hide ParseConfig;
    hide ConfigBody;
    hide Hydrate;
    var c := Config("", "5*");
    assert c.setId[1] == '*';
    ConfigRoundTripIff(c);
  }

  // --- names and lines letter by letter ---------------------------------------

  /** f is c or its capital; the long s and the rounded o and es of old Cyrillic count as s, о and с. */
  predicate IsLetter(f: char, c: char) {
    || f == c
    || ('a' <= c <= 'z' && f as int == c as int - 32)
    || ('а' <= c <= 'я' && f as int == c as int - 32)
    || (c == 's' && f == '\U{017F}') || (c == 'о' && f == '\U{1C82}') || (c == 'с' && f == '\U{1C83}')
  }

  predicate SpelledLike(key: string, lower: string) {
    |key| == |lower| && forall i :: 0 <= i < |key| ==> IsLetter(key[i], lower[i])
  }

  lemma FoldIsLetter(f: char, c: char)
    requires 'a' <= c <= 'z' || 'а' <= c <= 'я'
    ensures Fold(f) == c <==> IsLetter(f, c)
  {
  }

  /** A name is taken exactly if its letters, folded, are those of the lower-case name. */
  lemma SameNameSpelled(key: string, name: string, lower: string)
    requires |name| == |lower| && forall i :: 0 <= i < |lower| ==>
      Fold(name[i]) == lower[i] && ('a' <= lower[i] <= 'z' || 'а' <= lower[i] <= 'я')
    ensures SameName(key, name) <==> SpelledLike(key, lower)
  {
    hide Fold;
    hide IsLetter;
    if |key| == |lower| {
      forall i | 0 <= i < |key| ensures Fold(key[i]) == Fold(name[i]) <==> IsLetter(key[i], lower[i]) {
        FoldIsLetter(key[i], lower[i]);
      }
    }
  }

  /** A setting names the set exactly if it is spelled like one of the two names, in any letter case. */
  lemma NamesSetIff(key: string)
    ensures NamesSet(key) <==> SpelledLike(key, "наборфгис") || SpelledLike(key, "fgissetid")
  {
    SameNameSpelled(key, "наборФГИС", "наборфгис");
    SameNameSpelled(key, "fgisSetId", "fgissetid");
  }

  /** Another setting is kept exactly if it has a key that is none of the two names as they are written. */
  lemma OtherParamIff(key: string, value: string, plain: string)
    requires '=' !in key && '=' !in plain
    ensures OtherParam(key + "=" + value) <==> Trim(key) != "" && Trim(key) != "наборФГИС" && Trim(key) != "fgisSetId"
    ensures !OtherParam(plain)
  {
    hide Trim;
    var f := key + "=" + value;
    IndexOfCharFirst(key, '=', value);
    assert f == key + ['='] + value;
    assert f[..|key|] == key;
    IndexOfCharNone(plain, '=');
  }

  /** An estimate without a settings line is written with format 49 and its set, completed before or not. */
  lemma NewLineWritten(c: Config)
    requires !StartsWith(c.raw, "F(") && SetSafe(c.setId) && c.setId != ""
    ensures ConfigBody(c) == "F(49)'наборФГИС=" + Escape(c.setId) == ConfigBody(Hydrate(c))
  {
    hide Escape;
    NewLineText(c);
    hide ConfigBody;
    hide Hydrate;
    hide CanonText;
    NoMatchWritten(c);
    ConfigWritten(c);
    SetOnlyText(c.setId);
    LineLiteral(Escape(c.setId));
  }

  lemma NewLineText(c: Config)
    requires !StartsWith(c.raw, "F(") && c.setId != ""
    ensures ConfigBody(c) == "F(49)" + ("'наборФГИС=" + Escape(c.setId))
  {
    hide Escape;
  }

  lemma LineLiteral(t: string)
    ensures "F(" + FORMAT_CODE + ")" + ("'" + SetField(t)) == "F(49)'наборФГИС=" + t == "F(49)" + ("'наборФГИС=" + t)
  {
  }
}

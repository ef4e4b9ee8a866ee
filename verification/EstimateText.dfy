/**
  Whole estimates as text (web/app.js): the title lines, the items and the closing line written
  out, and the text applied back to the estimate it came from.
 */
module EstimateText {
  import opened Text
  import opened EscapedText
  import opened EstimateHeader
  import opened EstimateConfig
  import opened EstimateLines
  import opened EstimateReading
  import opened Wrappers
  import Numbers

  /** What the editor shows for the construction and the object: code and name. */
  datatype Labels = Labels(construction: string, object: string)

  datatype Estimate = Estimate(header: Header, construction: Construction, labels: Labels, config: Config, bim: string,
                               items: seq<Item>)

  function LabelsOf(c: Construction): Labels {
    Labels(Trim(c.constructionCode + " " + c.constructionName), Trim(c.objectCode + " " + c.objectName))
  }

  lemma LabelIs(code: string, name: string)
    requires Trimmed(code) && Trimmed(name)
    ensures Trim(code + " " + name) == if code == "" then name else if name == "" then code else code + " " + name
  {
    var s := code + " " + name;
    TrimIsTrimmed(code);
    TrimIsTrimmed(name);
    if code == "" {
      assert s == " " + name && s[1..] == name;
      assert TrimLeft(s) == TrimLeft(name);
    } else if name == "" {
      assert s == code + [' '];
      TrimSpace(code, ' ');
    } else {
      hide Trim;
      assert s[0] == code[0] && s[|s| - 1] == name[|name| - 1];
      TrimIsTrimmed(s);
    }
  }

  /** The labels show code and name with a space between them, or the one of them that is there. */
  lemma LabelsShown(c: Construction)
    requires Trimmed(c.constructionCode) && Trimmed(c.constructionName) && Trimmed(c.objectCode) && Trimmed(c.objectName)
    ensures var k, n, o, m := c.constructionCode, c.constructionName, c.objectCode, c.objectName;
      LabelsOf(c) == Labels(if k == "" then n else if n == "" then k else k + " " + n,
                            if o == "" then m else if m == "" then o else o + " " + m)
  {
    hide Trim;
    LabelIs(c.constructionCode, c.constructionName);
    LabelIs(c.objectCode, c.objectName);
  }

  function StoredAll(items: seq<Item>, str: Printer): (r: seq<Item>)
    ensures |r| == |items|
  {
    seq(|items|, i requires 0 <= i < |items| => Stored(items[i], str))
  }

  /** What serializing changes: the settings are completed, every item keeps its line. */
  function Serialized(e: Estimate, str: Printer): Estimate {
    e.(config := Hydrate(e.config), items := StoredAll(e.items, str))
  }

  function TitleLines(e: Estimate): seq<string> {
    [HeaderBody(e.header) + "*", ConstructionBody(e.construction) + "*", ConfigBody(Hydrate(e.config)) + "*"]
  }

  /** The lines of serializeEstimateToText. */
  function TextLines(e: Estimate, str: Printer): seq<string> {
    TitleLines(e) + ItemLines(e.items, str) + [ClosingBody(e.bim) + "*"]
  }

  function TextOf(e: Estimate, str: Printer): string {
    Join(TextLines(e, str), '\n')
  }

  // --- reading --------------------------------------------------------------

  /** text.split(/\r?\n/), each line trimmed at its end, empty lines left out */
  function CleanLines(pieces: seq<string>): seq<string> {
    if pieces == [] then []
    else (if TrimRight(pieces[0]) == "" then [] else [TrimRight(pieces[0])]) + CleanLines(pieces[1..])
  }

  function LinesOf(text: string): seq<string> {
    CleanLines(Split(text, '\n'))
  }

  /** extractSourceDataBimConfigFromLines: the last closing line */
  function FindClosing(lines: seq<string>): string {
    if lines == [] then ""
    else match RecordLine(lines[|lines| - 1])
      case None => FindClosing(lines[..|lines| - 1])
      case Some(line) => if StartsWith(line, "К") then ParseClosing(line) else FindClosing(lines[..|lines| - 1])
  }

  function ParseTitle<T>(line: string, parse: string -> Result<T>): Result<T> {
    match RecordLine(line)
    case None => Err
    case Some(body) => parse(body)
  }

  datatype Outcome = Outcome(estimate: Estimate, ok: bool)

  /**
    applySourceDataTextToEstimate. A bad title line changes nothing; a bad item line leaves
    the new title data with the old items.
   */
  function Applied(e: Estimate, lines: seq<string>, freshId: nat -> string): Outcome {
    if |lines| < 3 then Outcome(e, false)
    else
      match (ParseTitle(lines[0], ParseHeader), ParseTitle(lines[1], ParseConstruction),
             ParseTitle(lines[2], ParseConfig))
      case (Ok(h), Ok(c), Ok(config)) =>
        var district := if h.district != "" then h.district else e.header.district;
        var titled := Estimate(h.(district := district), c, LabelsOf(c), config, FindClosing(lines), e.items);
        (match ReadLines(e.items, lines[3..], |lines| - 3, freshId)
         case None => Outcome(titled, false)
         case Some(items) => Outcome(titled.(items := items), true))
      case _ => Outcome(e, false)
  }

  /** The estimate the editor holds; serializing and applying change it in place. */
  class Document {
    var header: Header
    var construction: Construction
    var labels: Labels
    var config: Config
    var bim: string
    var items: seq<Item>

    constructor (e: Estimate)
      ensures State() == e
    {
      header, construction, labels, config, bim, items := e.header, e.construction, e.labels, e.config, e.bim, e.items;
    }

    function State(): Estimate
      reads this
    {
      Estimate(header, construction, labels, config, bim, items)
    }

    /** The loop over the items: each is written and keeps its line as raw text. */
    method WriteItems(str: Printer) returns (lines: seq<string>)
      modifies this`items
      ensures lines == ItemLines(old(items), str)
      ensures items == StoredAll(old(items), str)
    {
      hide BodyOf;
      hide ShownOf;
      ghost var before := items;
      lines := [];
      for i := 0 to |items|
        invariant |items| == |before|
        invariant forall j :: 0 <= j < i ==> items[j] == Stored(before[j], str)
        invariant forall j :: i <= j < |items| ==> items[j] == before[j]
        invariant lines == ItemLines(before, str)[..i]
      {
        var body := BodyOf(ShownOf(items[i], str), str);
        lines := lines + [body + "*"];
        items := items[i := items[i].(rawText := body)];
      }
    }

    /** serializeEstimateToText */
    method SerializeToText(str: Printer) returns (text: string)
      modifies this
      ensures text == TextOf(old(State()), str)
      ensures State() == Serialized(old(State()), str)
    {
      hide HeaderBody;
      hide ConstructionBody;
      hide ConfigBody;
      hide ClosingBody;
      hide Hydrate;
      hide Join;
      hide ItemLines;
      hide StoredAll;
      config := Hydrate(config);
      var titles := [HeaderBody(header) + "*", ConstructionBody(construction) + "*", ConfigBody(config) + "*"];
      var lines := WriteItems(str);
      text := Join(titles + lines + [ClosingBody(bim) + "*"], '\n');
    }

    /** The loop over the lines behind the title lines. */
    method ReadItems(rest: seq<string>, freshId: nat -> string) returns (r: Option<seq<Item>>)
      ensures r == ReadLines(items, rest, |rest|, freshId)
    {
      hide ReadLine;
      hide RecordLine;
      hide TrimRight;
      var newItems: seq<Item> := [];
      for k := 0 to |rest|
        invariant ReadLines(items, rest, k, freshId) == Some(newItems)
      {
        if TrimRight(rest[k]) == "" {
          continue;
        }
        var line := RecordLine(rest[k]);
        if line.None? {
          StopsReading(items, rest, k + 1, |rest|, freshId);
          return None;
        }
        match ReadLine(items, newItems, line.value, freshId(k + 1)) {
          case Skip =>
          case Fail =>
            StopsReading(items, rest, k + 1, |rest|, freshId);
            return None;
          case Add(item) => newItems := newItems + [item];
        }
      }
      return Some(newItems);
    }

    /** applySourceDataTextToEstimate */
    method ApplyLines(lines: seq<string>, freshId: nat -> string) returns (ok: bool)
      modifies this
      ensures Outcome(State(), ok) == Applied(old(State()), lines, freshId)
    {
      hide ParseTitle;
      hide FindClosing;
      hide ReadLines;
      if |lines| < 3 {
        return false;
      }
      var h := ParseTitle(lines[0], ParseHeader);
      var c := ParseTitle(lines[1], ParseConstruction);
      var f := ParseTitle(lines[2], ParseConfig);
      if h.Err? || c.Err? || f.Err? {
        return false;
      }
      var previousDistrict := header.district;
      header := h.value;
      if header.district == "" {
        header := header.(district := previousDistrict);
      }
      construction := c.value;
      labels := LabelsOf(construction);
      config := f.value;
      bim := FindClosing(lines);
      var newItems := ReadItems(lines[3..], freshId);
      if newItems.None? {
        return false;
      }
      items := newItems.value;
      return true;
    }
  }

  lemma {:induction false} StopsReading(existing: seq<Item>, lines: seq<string>, k: nat, n: nat, freshId: nat -> string)
    requires k <= n <= |lines| && ReadLines(existing, lines, k, freshId).None?
    ensures ReadLines(existing, lines, n, freshId).None?
  {
    hide ReadLine;
    hide RecordLine;
    if k < n { StopsReading(existing, lines, k, n - 1, freshId); }
  }

  // --- the round trip -------------------------------------------------------

  /** Fields that can be written and read, and a positive estimate number. */
  ghost predicate EstimateOk(e: Estimate, str: Printer) {
    && e.header.numericId > 0 && HeaderSafe(e.header)
    && ConstructionSafe(e.construction)
    && ConfigOk(e.config)
    && Plain(e.bim)
    && forall i :: 0 <= i < |e.items| ==> ShownOk(ShownOf(e.items[i], str), str) && KeepsShown(e.items[i], str)
  }

  lemma StoredWritten(e: Estimate, str: Printer)
    requires EstimateOk(e, str)
    ensures EstimateReading.Written(StoredAll(e.items, str), e.items, str)
  {
  }

  lemma TitlesRead(e: Estimate, str: Printer)
    requires EstimateOk(e, str)
    ensures var t, c := TitleLines(e), Hydrate(e.config);
      && ParseTitle(t[0], ParseHeader) == Ok(e.header)
      && ParseTitle(t[1], ParseConstruction) == Ok(e.construction)
      && ParseTitle(t[2], ParseConfig) == ParseConfig(ConfigBody(c)) && ParseConfig(ConfigBody(c)).Ok?
  {
    hide ParseHeader;
    hide ParseConstruction;
    hide ParseConfig;
    hide HeaderBody;
    hide ConstructionBody;
    hide ConfigBody;
    hide Hydrate;
    hide ShownOk;
    hide RecordLine;
    hide ConfigOk;
    RecordLineOf(HeaderBody(e.header));
    RecordLineOf(ConstructionBody(e.construction));
    RecordLineOf(ConfigBody(Hydrate(e.config)));
    HeaderRoundTrip(e.header);
    ConstructionRoundTrip(e.construction);
    ConfigRoundTripIff(e.config);
  }

  lemma ClosingFound(lines: seq<string>, bim: string)
    requires lines != [] && lines[|lines| - 1] == ClosingBody(bim) + "*" && Plain(bim)
    ensures FindClosing(lines) == bim
  {
    hide ParseClosing;
    hide Escape;
    hide RecordLine;
    RecordLineOf(ClosingBody(bim));
    ClosingRoundTripIff(bim);
  }

  lemma ClosingIsSkipped(bim: string)
    ensures IsSkipped(ClosingBody(bim))
  {
  }

  /** The items and the closing line behind the title lines. */
  lemma ItemsRead(existing: seq<Item>, items: seq<Item>, bim: string, freshId: nat -> string, str: Printer)
    requires EstimateReading.Written(existing, items, str)
    ensures var rest := ItemLines(items, str) + [ClosingBody(bim) + "*"];
      var r := ReadLines(existing, rest, |rest|, freshId);
      r.Some? && ShowSame(r.value, items, |items|, str)
  {
    hide BodyOf;
    hide ShownOf;
    hide IsSkipped;
    hide RecordLine;
    hide TrimRight;
    hide ClosingBody;
    hide ItemLines;
    hide ShowSame;
    hide EstimateReading.Written;
    var rest := ItemLines(items, str) + [ClosingBody(bim) + "*"];
    ReadItemLines(existing, items, rest, |items|, freshId, str);
    RecordLineOf(ClosingBody(bim));
    ClosingIsSkipped(bim);
    assert rest[|rest| - 1] == ClosingBody(bim) + "*";
    SkippedLast(existing, rest, ClosingBody(bim), freshId);
  }

  /** A skipped last line adds nothing. */
  lemma SkippedLast(existing: seq<Item>, lines: seq<string>, body: string, freshId: nat -> string)
    requires lines != [] && IsSkipped(body)
    requires var last := lines[|lines| - 1]; TrimRight(last) != "" && RecordLine(last) == Some(body)
    ensures ReadLines(existing, lines, |lines|, freshId) == ReadLines(existing, lines, |lines| - 1, freshId)
  {
    hide RecordLine;
    hide TrimRight;
    hide IsSkipped;
  }

  /**
    Serializing an estimate and applying the lines to it restores all title and closing fields,
    the labels that go with them, and a list of items that show the same, in order. The price set
    comes back exactly when it is kept; then serializing again gives the same lines.
   */
  lemma LinesRoundTrip(e: Estimate, freshId: nat -> string, str: Printer)
    requires EstimateOk(e, str)
    ensures RestoredBy(e, TextLines(e, str), freshId, str)
  {
    hide ParseTitle;
    hide EstimateOk;
    hide HeaderBody;
    hide ConstructionBody;
    hide ConfigBody;
    hide Hydrate;
    hide ClosingBody;
    hide FindClosing;
    hide ReadLines;
    hide StoredAll;
    hide ItemLines;
    hide ShowSame;
    hide ParseConfig;
    hide EstimateConfig.Kept;
    hide EstimateConfig.Written;
    hide EstimateReading.Written;
    var lines := TextLines(e, str);
    TitlesRead(e, str);
    StoredWritten(e, str);
    ItemsRead(StoredAll(e.items, str), e.items, e.bim, freshId, str);
    assert lines[3..] == ItemLines(e.items, str) + [ClosingBody(e.bim) + "*"];
    OkParts(e, str);
    ClosingFound(lines, e.bim);
    var r := Applied(Serialized(e, str), lines, freshId);
    SameLines(r.estimate.items, e.items, str);
    ConfigRoundTripIff(e.config);
  }

  ghost predicate RestoredBy(e: Estimate, lines: seq<string>, freshId: nat -> string, str: Printer) {
    var r := Applied(Serialized(e, str), lines, freshId);
    && r.ok
    && r.estimate.header == e.header && r.estimate.construction == e.construction && r.estimate.bim == e.bim
    && r.estimate.labels == LabelsOf(e.construction)
    && ShowSame(r.estimate.items, e.items, |e.items|, str)
    && (r.estimate.config.setId == Hydrate(e.config).setId <==> Kept(EstimateConfig.Written(e.config)))
    && (Kept(EstimateConfig.Written(e.config)) ==> TextLines(r.estimate, str) == TextLines(e, str))
  }

  lemma OkParts(e: Estimate, str: Printer)
    requires EstimateOk(e, str)
    ensures Plain(e.bim) && ConfigOk(e.config)
  {
  }

  // --- lines and text -------------------------------------------------------

  lemma {:induction false} CleanStays(lines: seq<string>)
    requires forall l :: l in lines ==> TrimRight(l) == l && l != ""
    ensures CleanLines(lines) == lines
  {
    hide TrimRight;
    if lines != [] {
      assert lines[0] in lines;
      CleanStays(lines[1..]);
    }
  }

  predicate CleanLine(l: string) {
    '\n' !in l && TrimRight(l) == l && l != ""
  }

  /** A star at its end makes a one-line body a clean line. */
  lemma StarLine(body: string)
    requires '\n' !in body
    ensures CleanLine(body + "*")
  {
  }

  lemma HeaderNoFeed(h: Header)
    requires HeaderSafe(h)
    ensures '\n' !in HeaderBody(h)
  {
    hide Numbers.NumberText;
    HeaderFieldsSafe(h);
    JoinWithout(HeaderFields(h), '\n');
  }

  lemma ConstructionNoFeed(c: Construction)
    requires ConstructionSafe(c)
    ensures '\n' !in ConstructionBody(c)
  {
    JoinWithout(ConstructionFields(c), '\n');
  }

  lemma ClosingNoFeed(bim: string)
    requires Plain(bim)
    ensures '\n' !in ClosingBody(bim)
  {
    hide Escape;
    PlainUnescapes(bim);
  }

  lemma ConfigNoFeed(c: Config)
    requires ConfigOk(c)
    ensures '\n' !in ConfigBody(Hydrate(c))
  {
    hide ConfigBody;
    hide Hydrate;
    hide ConfigOk;
    hide CanonOk;
    hide EstimateConfig.Written;
    ConfigWritten(c);
    CanonNoFeed(EstimateConfig.Written(c));
  }

  lemma NoFeed(f: string)
    requires WrittenSafe(f)
    ensures '\n' !in f
  {
  }

  lemma CanonNoFeed(c: Canon)
    requires CanonOk(c)
    ensures '\n' !in CanonText(c)
  {
    hide OtherParam;
    hide SettingSafe;
    hide MatchSettings;
    hide Escape;
    MatchCanon(c);
    WrittenFields(c);
    hide CanonText;
    hide CanonWritten;
    hide OnOneLine;
    var written := CanonWritten(c);
    if written != [] {
      forall f | f in written ensures '\n' !in f { NoFeed(f); }
      JoinWithout(written, '\n');
    }
    assert forall i :: 0 <= i < |c.format| ==> c.format[i] != '\n';
  }

  lemma ItemNoFeed(s: Shown, str: Printer)
    requires ShownOk(s, str)
    ensures '\n' !in BodyOf(s, str)
  {
    hide Escape;
    if s.Line? {
      BodyFields(s, str);
    } else {
      EscapeIsEscaped(s.name);
      EscapedIsOneField(s.name);
    }
  }

  lemma LinesClean(e: Estimate, str: Printer)
    requires EstimateOk(e, str)
    ensures forall l :: l in TextLines(e, str) ==> CleanLine(l)
  {
    hide CleanLine;
    hide HeaderBody;
    hide ConstructionBody;
    hide ConfigBody;
    hide Hydrate;
    hide ClosingBody;
    hide BodyOf;
    hide ShownOf;
    hide ShownOk;
    hide ConfigOk;
    HeaderNoFeed(e.header);
    StarLine(HeaderBody(e.header));
    ConstructionNoFeed(e.construction);
    StarLine(ConstructionBody(e.construction));
    ConfigNoFeed(e.config);
    StarLine(ConfigBody(Hydrate(e.config)));
    ClosingNoFeed(e.bim);
    StarLine(ClosingBody(e.bim));
    forall i | 0 <= i < |e.items| ensures CleanLine(ItemLines(e.items, str)[i]) {
      ItemNoFeed(ShownOf(e.items[i], str), str);
      StarLine(BodyOf(ShownOf(e.items[i], str), str));
    }
  }

  /** The text splits into exactly the lines it was joined from. */
  lemma TextSplits(e: Estimate, str: Printer)
    requires EstimateOk(e, str)
    ensures LinesOf(TextOf(e, str)) == TextLines(e, str)
  {
    hide EstimateOk;
    hide TextLines;
    LinesClean(e, str);
    var lines := TextLines(e, str);
    assert |lines| >= 1 by { HasLines(e, str); }
    SplitJoin(lines, '\n');
    forall l | l in lines ensures TrimRight(l) == l && l != "" && '\n' !in l { assert CleanLine(l); }
    CleanStays(lines);
  }

  lemma HasLines(e: Estimate, str: Printer)
    ensures |TextLines(e, str)| >= 4
  {
  }

  /**
    The text of an estimate applied to it: split into lines again, it restores what was written;
    and where the price set is kept the text of the result is the same text.
   */
  lemma TextRoundTrip(e: Estimate, freshId: nat -> string, str: Printer)
    requires EstimateOk(e, str)
    ensures RestoredBy(e, LinesOf(TextOf(e, str)), freshId, str)
    ensures Kept(EstimateConfig.Written(e.config)) ==>
      TextOf(Applied(Serialized(e, str), LinesOf(TextOf(e, str)), freshId).estimate, str) == TextOf(e, str)
  {
    hide EstimateOk;
    hide Applied;
    hide TextLines;
    hide LinesOf;
    TextSplits(e, str);
    LinesRoundTrip(e, freshId, str);
  }
}

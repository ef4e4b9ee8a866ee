/**
  Looking up one norm record with its prices (backend/internal/gsn): the normalisation of the
  request, the database, and the answer without a cache.
 */
module RecordLookup {
  import opened Text
  import opened Numbers
  import opened Wrappers

  // --- normalisation --------------------------------------------------------

  predicate CipherEnd(c: char) {
    c == '(' || c == ' ' || c == '#'
  }

  /** Length of the part before the first bracket, space or number sign. */
  function CutAt(s: string): (k: nat)
    ensures k <= |s|
    ensures forall i :: 0 <= i < k ==> !CipherEnd(s[i])
    ensures k < |s| ==> CipherEnd(s[k])
  {
    if s == "" || CipherEnd(s[0]) then 0 else 1 + CutAt(s[1..])
  }

  /** ExtractPositionCipher */
  function Cipher(field: string): string {
    var raw := Trim(field);
    Trim(raw[..CutAt(raw)])
  }

  const INT64_LIMIT: int := 0x8000_0000_0000_0000

  /** strconv.Atoi */
  function Atoi(s: string): Option<int> {
    var negative := s != "" && s[0] == '-';
    var digits := if s != "" && (s[0] == '-' || s[0] == '+') then s[1..] else s;
    if digits == "" || !AllDigits(digits) then None
    else
      var n: int := DigitsValue(digits);
      if negative then (if n <= INT64_LIMIT then Some(-n) else None)
      else if n < INT64_LIMIT then Some(n) else None
  }

  /** strconv.Itoa */
  function Itoa(n: int): string {
    if n < 0 then "-" + DigitsText(-n, 1) else DigitsText(n, 1)
  }

  function RegionCode(code: string): string {
    var t := Trim(code);
    match Atoi(t)
    case Some(n) => Itoa(n)
    case None => t
  }

  function Zone(zone: string): string {
    match Atoi(Trim(zone))
    case Some(n) => if 1 <= n <= 11 then Itoa(n) else ""
    case None => ""
  }

  /** normalizeDistrictKey */
  function DistrictKey(district: string): string {
    var t := Trim(district);
    var dot := IndexOfChar(t, '.');
    if dot == |t| then RegionCode(t)
    else
      var region, zonePart := RegionCode(t[..dot]), t[dot + 1..];
      if '.' in zonePart || Zone(zonePart) == "" then region else region + "." + Zone(zonePart)
  }

  // --- the database ---------------------------------------------------------

  datatype RecordRow = RecordRow(code: string, originalCode: string, name: string, unit: string, determinant: string,
                                 mass: string, kind: string, costIndicators: string)
  datatype ResourceRow = ResourceRow(resourceCode: string, quantityText: string)
  datatype Codifier = Codifier(code: string, name: string, unit: string)
  datatype SetRow = SetRow(prices: string, indexes: string)
  datatype SetKey = SetKey(setId: string, code: string)

  datatype Database = Database(
    records: map<string, RecordRow>,
    byOriginalCode: map<string, RecordRow>,
    resources: map<string, seq<ResourceRow>>,
    codifiers: map<string, Codifier>,
    setRows: map<SetKey, SetRow>)

  datatype Price = Price(text: string, index: string)
  datatype Resource = Resource(code: string, number: string, originalCode: string, name: string, unit: string,
                               quantityText: string, price: Price, determinant: string, mass: string)
  datatype Detail = Detail(code: string, originalCode: string, name: string, unit: string, isWork: bool,
                           hasResources: bool, price: Price, determinant: string, mass: string,
                           resources: seq<Resource>)

  datatype Error = CodeRequired | RecordNotFound
  datatype Result<+T> = Ok(value: T) | Err(error: Error)

  const NO_PRICE := Price("", "")

  // --- prices ---------------------------------------------------------------

  /** The part after the last separator, if there is a separator. */
  function LastPart(s: string, separator: string): Option<string>
    requires separator != ""
    decreases |s|
  {
    if |s| < |separator| then None
    else if StartsWith(s, separator) then
      var rest := s[|separator|..];
      (match LastPart(rest, separator) case None => Some(rest) case Some(p) => Some(p))
    else LastPart(s[1..], separator)
  }

  function AfterLastColon(s: string): string {
    var i := LastIndexOf(s, ':');
    if i < |s| then Trim(s[i + 1..]) else s
  }

  /** extractBasePrice */
  function BasePrice(costIndicators: string): string {
    var t := Trim(costIndicators);
    match LastPart(t, "##")
    case Some(p) => Trim(p)
    case None =>
      match LastPart(t, "#")
      case Some(p) => AfterLastColon(Trim(p))
      case None => AfterLastColon(t)
  }

  /** One "district:value" entry of a price list, when it is for this district. */
  function EntryValue(entry: string, key: string): string {
    var part := Trim(entry);
    var colon := IndexOfChar(part, ':');
    if 0 < colon < |part| && DistrictKey(part[..colon]) == key then Trim(part[colon + 1..]) else ""
  }

  /** The first value for the district. */
  function FirstValue(entries: seq<string>, key: string): string {
    if entries == [] then ""
    else if EntryValue(entries[0], key) != "" then EntryValue(entries[0], key)
    else FirstValue(entries[1..], key)
  }

  /** pickFGISValueByDistrict */
  function PickValue(values: string, district: string): string {
    var key := DistrictKey(district);
    if Trim(values) == "" || key == "" then "" else FirstValue(Split(Trim(values), '/'), key)
  }

  /** resolveResourceUnitPrice */
  function UnitPrice(row: SetRow, costIndicators: string, district: string): Price {
    if Trim(row.prices) != "" then Price(PickValue(Trim(row.prices), district), "")
    else if Trim(row.indexes) == "" then NO_PRICE
    else
      var index, base := PickValue(Trim(row.indexes), district), BasePrice(costIndicators);
      if index == "" || base == "" then NO_PRICE else Price(base, index)
  }

  /** The row of a set; a blank set has none. */
  function FindSetRow(db: Database, setId: string, code: string): Option<SetRow> {
    var key := SetKey(Trim(setId), code);
    if Trim(setId) != "" && code != "" && key in db.setRows then Some(db.setRows[key]) else None
  }

  // --- the record without a cache -------------------------------------------

  predicate LabelLetter(c: char) {
    c == 'С' || c == 'C' || c == 'М' || c == 'M' || c == 'Т' || c == 'T'
  }

  /** The digits of a resource code, without a type label in front. */
  function NumberKey(resourceCode: string): string {
    var t := Trim(resourceCode);
    DigitsOnly(if |t| >= 2 && LabelLetter(t[0]) && IsDigit(t[1]) then t[1..] else t)
  }

  function DigitsOnly(s: string): string {
    if s == "" then "" else (if IsDigit(s[0]) then [s[0]] else "") + DigitsOnly(s[1..])
  }

  predicate IsResourceCode(code: string) {
    var t := Trim(code);
    |t| >= 2 && LabelLetter(t[0]) && IsDigit(t[1])
  }

  function PadSegment(part: string): string {
    var t := Trim(part);
    match Atoi(t)
    case Some(n) => if n >= 0 then DigitsText(n, 4) else "-" + DigitsText(-n, 3)
    case None => t
  }

  function PadAll(parts: seq<string>): (padded: seq<string>)
    ensures |padded| == |parts|
  {
    seq(|parts|, i requires 0 <= i < |parts| => PadSegment(parts[i]))
  }

  /** NormalizeResourceCatalogCode */
  function CatalogCode(code: string): string {
    var t := Trim(code);
    var parts := Split(t, '-');
    if !IsResourceCode(t) || |parts| < 3 then t else Join([parts[0]] + PadAll(parts[1..]), '-')
  }

  /** recordLookupCandidates */
  function Candidates(code: string): seq<string> {
    var cipher := Cipher(code);
    var first := if cipher == "" then [] else [cipher];
    var padded := Trim(CatalogCode(cipher));
    if padded == "" || padded in first then first else first + [padded]
  }

  function FirstIn(table: map<string, RecordRow>, codes: seq<string>): Option<RecordRow> {
    if codes == [] then None
    else if codes[0] in table then Some(table[codes[0]])
    else FirstIn(table, codes[1..])
  }

  function LookupRecord(db: Database, code: string): Option<RecordRow> {
    match FirstIn(db.records, Candidates(code))
    case Some(row) => Some(row)
    case None => FirstIn(db.byOriginalCode, Candidates(code))
  }

  function Lower(s: string): string {
    if s == "" then ""
    else [if 'A' <= s[0] <= 'Z' then (s[0] as int + 32) as char else s[0]] + Lower(s[1..])
  }

  /** isWorkNormRecord */
  predicate IsWorkRecord(code: string, kind: string) {
    var t, k := Trim(code), Lower(Trim(kind));
    && t != "" && k != "resource_catalog" && k != "coefficient_catalog"
    && (t[0] == 'Е' || t[0] == 'У' || t[0] == 'E' || t[0] == 'U' || (!LabelLetter(t[0]) && Lower(kind) == "norm"))
  }

  function BuildResource(db: Database, row: ResourceRow, setId: string, district: string): Resource {
    var number := NumberKey(row.resourceCode);
    var plain := Resource(number, number, "", "", "", row.quantityText, NO_PRICE, "", "");
    if number == "" || number !in db.codifiers then plain
    else
      var codifier := db.codifiers[number];
      var named := plain.(name := codifier.name, unit := codifier.unit);
      if codifier.code == "" then named
      else if !(Trim(codifier.code) == codifier.code && codifier.code in db.records) then named.(code := codifier.code)
      else
        var info := db.records[codifier.code];
        var full := named.(code := codifier.code, originalCode := info.originalCode, determinant := info.determinant,
                           mass := info.mass);
        match FindSetRow(db, setId, codifier.code)
        case None => full
        case Some(setRow) => full.(price := UnitPrice(setRow, info.costIndicators, district))
  }

  function BuildAll(db: Database, rows: seq<ResourceRow>, setId: string, district: string): (list: seq<Resource>)
    ensures |list| == |rows|
  {
    seq(|rows|, i requires 0 <= i < |rows| => BuildResource(db, rows[i], setId, district))
  }

  function RowsOf(db: Database, code: string): seq<ResourceRow> {
    if code in db.resources then db.resources[code] else []
  }

  function SelfPrice(db: Database, row: RecordRow, setId: string, district: string): Price {
    match FindSetRow(db, setId, Trim(row.code))
    case None => NO_PRICE
    case Some(setRow) => UnitPrice(setRow, row.costIndicators, district)
  }

  function OriginalCode(row: RecordRow): string {
    if Trim(row.originalCode) == "" then Trim(row.code) else Trim(row.originalCode)
  }

  /** What the database says about one record, in one set and district. */
  function DetailOf(db: Database, row: RecordRow, setId: string, district: string): Detail {
    var work := IsWorkRecord(row.code, row.kind);
    var list := if work then BuildAll(db, RowsOf(db, row.code), setId, district) else [];
    Detail(row.code, OriginalCode(row), row.name, row.unit, work, list != [],
           if work then NO_PRICE else SelfPrice(db, row, setId, district), row.determinant, row.mass, list)
  }

  datatype Request = Request(code: string, setId: string, district: string)

  /** GetRecordDetail without a cache. */
  function Uncached(db: Database, q: Request): Result<Detail> {
    var cipher := Cipher(q.code);
    if cipher == "" then Err(CodeRequired)
    else match LookupRecord(db, cipher)
      case None => Err(RecordNotFound)
      case Some(row) => Ok(DetailOf(db, row, q.setId, q.district))
  }

  // --- the normalisers are idempotent ---------------------------------------

  lemma TrimPrefix(s: string, k: nat)
    requires k <= |s| && Trimmed(s)
    ensures Trim(s[..k]) <= s[..k]
  {
    if k > 0 {
      assert s[..k][0] == s[0];
      TrimRightTrims(s[..k]);
    }
  }

  lemma CutWhole(s: string)
    requires forall i :: 0 <= i < |s| ==> !CipherEnd(s[i])
    ensures CutAt(s) == |s|
  {
  }

  lemma CipherShape(field: string)
    ensures var c := Cipher(field); Trimmed(c) && forall i :: 0 <= i < |c| ==> !CipherEnd(c[i])
  {
    hide CutAt;
    var raw := Trim(field);
    TrimIsTrimmed(field);
    TrimPrefix(raw, CutAt(raw));
    TrimIsTrimmed(raw[..CutAt(raw)]);
  }

  lemma CipherIdempotent(field: string)
    ensures Cipher(Cipher(field)) == Cipher(field)
  {
    hide CutAt;
    var c := Cipher(field);
    CipherShape(field);
    TrimIsTrimmed(c);
    CutWhole(c);
    assert c[..|c|] == c;
  }

  lemma AtoiItoa(n: int)
    requires -INT64_LIMIT <= n < INT64_LIMIT
    ensures Atoi(Itoa(n)) == Some(n)
    ensures Itoa(n) != "" && Trimmed(Itoa(n)) && '.' !in Itoa(n)
  {
    hide DigitsValue;
    hide DigitsText;
    var m := if n < 0 then -n else n;
    DigitsTextValue(m, 1);
    var d := DigitsText(m, 1);
    assert IsDigit(d[0]) && IsDigit(d[|d| - 1]);
    if n < 0 {
      assert Itoa(n)[1..] == d;
      assert Itoa(n)[|d|] == d[|d| - 1];
    }
  }

  lemma RegionIdempotent(code: string)
    ensures RegionCode(RegionCode(code)) == RegionCode(code) && Trimmed(RegionCode(code))
    ensures '.' !in code ==> '.' !in RegionCode(code)
  {
    hide Itoa;
    var t := Trim(code);
    TrimIsTrimmed(code);
    TrimIsTrimmed(RegionCode(code));
    if Atoi(t).Some? {
      AtoiItoa(Atoi(t).value);
      TrimIsTrimmed(Itoa(Atoi(t).value));
    } else if '.' in t {
      TrimChars(code, '.');
    }
  }

  lemma ZoneIdempotent(zone: string)
    ensures Zone(Zone(zone)) == Zone(zone) && Trimmed(Zone(zone)) && '.' !in Zone(zone)
  {
    hide Itoa;
    var n := Atoi(Trim(zone));
    if n.Some? && 1 <= n.value <= 11 {
      AtoiItoa(n.value);
      TrimIsTrimmed(Itoa(n.value));
    } else {
      assert Trim("") == "" && Atoi("").None?;
    }
  }

  lemma RegionKey(region: string)
    requires Trimmed(region) && '.' !in region && RegionCode(region) == region
    ensures DistrictKey(region) == region
  {
  }

  lemma RegionZoneKey(region: string, zone: string)
    requires Trimmed(region) && '.' !in region && RegionCode(region) == region
    requires Trimmed(zone) && '.' !in zone && Zone(zone) == zone && zone != ""
    ensures DistrictKey(region + "." + zone) == region + "." + zone
  {
    hide RegionCode;
    hide Zone;
    var t := region + "." + zone;
    assert t[|t| - 1] == zone[|zone| - 1];
    assert region != "" ==> t[0] == region[0];
    assert Trimmed(t);
    TrimIsTrimmed(t);
    IndexOfCharFirst(region, '.', zone);
    assert t[..|region|] == region && t[|region| + 1..] == zone;
  }

  lemma DistrictKeyIdempotent(district: string)
    ensures DistrictKey(DistrictKey(district)) == DistrictKey(district)
  {
    hide RegionCode;
    hide Zone;
    var t := Trim(district);
    var dot := IndexOfChar(t, '.');
    assert '.' !in t[..dot];
    if dot == |t| {
      assert t[..dot] == t;
    }
    RegionIdempotent(t[..dot]);
    RegionKey(RegionCode(t[..dot]));
    if dot < |t| {
      var zonePart := t[dot + 1..];
      ZoneIdempotent(zonePart);
      if '.' !in zonePart && Zone(zonePart) != "" {
        RegionZoneKey(RegionCode(t[..dot]), Zone(zonePart));
      }
    }
  }

  // --- what the normalisers keep -----------------------------------------------

  /** A cipher ends at the first bracket, space or number sign. */
  lemma CipherCuts(cipher: string, end: char, rest: string)
    requires Trimmed(cipher) && '(' !in cipher && ' ' !in cipher && '#' !in cipher
    ensures Cipher(cipher) == cipher
    ensures cipher != "" && (end == '(' || end == ' ' || end == '#') ==> Cipher(cipher + [end] + rest) == cipher
  {
    hide TrimRight;
    hide CutAt;
    var s := cipher + [end] + rest;
    TrimIsTrimmed(cipher);
    CutWhole(cipher);
    assert cipher[..|cipher|] == cipher;
    if cipher != "" && (end == '(' || end == ' ' || end == '#') {
      CutOf(cipher, [end] + rest);
      assert s == cipher + ([end] + rest);
      var t := TrimRight([end] + rest);
      TrimRightJoin(cipher, [end] + rest);
      assert TrimLeft(s) == s;
      TrimRightTrims([end] + rest);
      CutOf(cipher, t);
    }
  }

  lemma CutOf(cipher: string, back: string)
    requires '(' !in cipher && ' ' !in cipher && '#' !in cipher
    requires back == "" || back[0] == '(' || back[0] == ' ' || back[0] == '#'
    ensures CutAt(cipher + back) == |cipher| && (cipher + back)[..|cipher|] == cipher
  {
    hide CutAt;
    var s := cipher + back;
    assert forall i :: 0 <= i < |cipher| ==> s[i] == cipher[i] && cipher[i] in cipher;
    assert back != "" ==> s[|cipher|] == back[0];
  }

  lemma NumberCode(a: string)
    requires a != "" && AllDigits(a) && DigitsValue(a) < INT64_LIMIT
    ensures Trim(a) == a && Atoi(a) == Some(DigitsValue(a) as int) && '.' !in a
  {
    hide DigitsValue;
    assert IsDigit(a[0]) && IsDigit(a[|a| - 1]);
    TrimIsTrimmed(a);
  }

  lemma ItoaInjective(m: nat, n: nat)
    ensures Itoa(m) == Itoa(n) <==> m == n
    ensures '.' !in Itoa(m)
  {
    hide DigitsText;
    hide DigitsValue;
    DigitsTextValue(m, 1);
    DigitsTextValue(n, 1);
    var d := DigitsText(m, 1);
    assert forall i :: 0 <= i < |d| ==> IsDigit(d[i]);
  }

  lemma RegionOf(a: string)
    requires a != "" && AllDigits(a) && DigitsValue(a) < INT64_LIMIT
    ensures RegionCode(a) == Itoa(DigitsValue(a)) && DistrictKey(a) == Itoa(DigitsValue(a))
  {
    hide DigitsValue;
    hide Itoa;
    hide Trim;
    hide Atoi;
    NumberCode(a);
    IndexOfCharNone(a, '.');
  }

  lemma ZoneOf(y: string)
    requires y != "" && AllDigits(y) && DigitsValue(y) < INT64_LIMIT
    ensures Zone(y) == (if 1 <= DigitsValue(y) <= 11 then Itoa(DigitsValue(y)) else "") && '.' !in y
  {
    hide DigitsValue;
    hide Itoa;
    hide Trim;
    hide Atoi;
    NumberCode(y);
  }

  lemma ZonedKey(a: string, y: string)
    requires a != "" && AllDigits(a) && DigitsValue(a) < INT64_LIMIT
    requires y != "" && AllDigits(y) && DigitsValue(y) < INT64_LIMIT
    ensures DistrictKey(a + "." + y)
            == Itoa(DigitsValue(a)) + if 1 <= DigitsValue(y) <= 11 then "." + Itoa(DigitsValue(y)) else ""
  {
    hide DistrictKey;
    hide RegionCode;
    hide DigitsValue;
    hide Itoa;
    hide Zone;
    hide Atoi;
    hide Trim;
    RegionOf(a);
    ZoneOf(y);
    NumberCode(a);
    ItoaNotEmpty(DigitsValue(y));
    DottedTrimmed(a, y);
    DottedKey(a, y);
    var m, p := Itoa(DigitsValue(a)), Itoa(DigitsValue(y));
    assert m + "." + p == m + ("." + p) && m + "" == m;
  }

  lemma DottedKey(a: string, y: string)
    requires '.' !in a && '.' !in y && Trim(a + "." + y) == a + "." + y
    ensures DistrictKey(a + "." + y) == if Zone(y) == "" then RegionCode(a) else RegionCode(a) + "." + Zone(y)
  {
    hide Trim;
    hide RegionCode;
    hide Zone;
    var t := a + "." + y;
    IndexOfCharFirst(a, '.', y);
    assert t == a + ['.'] + y;
    assert t[..|a|] == a && t[|a| + 1..] == y;
  }

  lemma DottedTrimmed(a: string, y: string)
    requires a != "" && AllDigits(a) && y != "" && AllDigits(y)
    ensures Trim(a + "." + y) == a + "." + y
  {
    hide Trim;
    var t := a + "." + y;
    assert t[0] == a[0] && t[|t| - 1] == y[|y| - 1] && IsDigit(a[0]) && IsDigit(y[|y| - 1]);
    TrimIsTrimmed(t);
  }

  lemma ItoaNotEmpty(n: nat)
    ensures Itoa(n) != ""
  {
    DigitsTextValue(n, 1);
  }

  /**
    Districts are told apart by their region number and by a zone number between 1 and 11, whatever
    zeros are written; another zone number is ignored.
   */
  lemma DistrictsSame(a: string, y: string, b: string, z: string)
    requires a != "" && AllDigits(a) && DigitsValue(a) < INT64_LIMIT && b != "" && AllDigits(b) && DigitsValue(b) < INT64_LIMIT
    requires y != "" && AllDigits(y) && DigitsValue(y) < INT64_LIMIT && z != "" && AllDigits(z) && DigitsValue(z) < INT64_LIMIT
    ensures DistrictKey(a) == DistrictKey(b) <==> DigitsValue(a) == DigitsValue(b)
    ensures DigitsValue(y) < 1 || DigitsValue(y) > 11 ==> DistrictKey(a + "." + y) == DistrictKey(a)
    ensures 1 <= DigitsValue(y) <= 11 ==> DistrictKey(a + "." + y) != DistrictKey(b)
    ensures 1 <= DigitsValue(y) <= 11 && 1 <= DigitsValue(z) <= 11 ==>
      (DistrictKey(a + "." + y) == DistrictKey(b + "." + z)
       <==> DigitsValue(a) == DigitsValue(b) && DigitsValue(y) == DigitsValue(z))
  {
    hide DistrictKey;
    hide RegionCode;
    hide DigitsValue;
    hide Itoa;
    RegionOf(a);
    RegionOf(b);
    ZonedKey(a, y);
    ZonedKey(b, z);
    var m, n, p, q := DigitsValue(a), DigitsValue(b), DigitsValue(y), DigitsValue(z);
    ItoaInjective(m, n);
    ItoaInjective(n, m);
    ItoaInjective(p, q);
    CutSame(Itoa(m), Itoa(n), '.', Itoa(p), Itoa(q));
    assert forall x: string, y: string :: x + ("." + y) == x + ['.'] + y;
    assert (Itoa(m) + ("." + Itoa(p)))[|Itoa(m)|] == '.';
    assert Itoa(m) + "" == Itoa(m);
  }

  lemma {:induction false} DigitsOnlyJoin(a: string, b: string)
    ensures DigitsOnly(a + b) == DigitsOnly(a) + DigitsOnly(b)
  {
    hide IsDigit;
    if a == "" {
      assert a + b == b;
    } else {
      var head := if IsDigit(a[0]) then [a[0]] else "";
      assert (a + b)[1..] == a[1..] + b;
      DigitsOnlyJoin(a[1..], b);
      assert head + (DigitsOnly(a[1..]) + DigitsOnly(b)) == head + DigitsOnly(a[1..]) + DigitsOnly(b);
    }
  }

  lemma {:induction false} DigitsOnlyTrims(s: string)
    ensures DigitsOnly(TrimLeft(s)) == DigitsOnly(s) && DigitsOnly(TrimRight(s)) == DigitsOnly(s)
    decreases |s|
  {
    if s != "" && IsSpace(s[0]) { DigitsOnlyTrims(s[1..]); }
    if s != "" && IsSpace(s[|s| - 1]) {
      var t, c := s[..|s| - 1], s[|s| - 1];
      DigitsOnlyTrims(t);
      DigitsOnlyJoin(t, [c]);
      assert s == t + [c] && [c][1..] == "";
    }
  }

  lemma NumberKeyIs(code: string)
    ensures NumberKey(code) == DigitsOnly(code)
  {
    DigitsOnlyTrims(code);
    DigitsOnlyTrims(TrimLeft(code));
  }

  lemma {:induction false} DigitsKept(s: string)
    requires AllDigits(s)
    ensures DigitsOnly(s) == s
  {
    if s != "" { DigitsKept(s[1..]); }
  }

  /** A resource is found by the digits of its code: they stay, and every other character goes. */
  lemma NumberKeyKeepsDigits(a: string, c: char, b: string)
    ensures AllDigits(a) ==> NumberKey(a) == a
    ensures NumberKey(a + [c] + b) == NumberKey(a) + (if IsDigit(c) then [c] else "") + NumberKey(b)
  {
    hide NumberKey;
    if AllDigits(a) { DigitsKept(a); }
    NumberKeyIs(a);
    NumberKeyIs(b);
    NumberKeyIs(a + [c] + b);
    DigitsOnlyJoin(a + [c], b);
    DigitsOnlyJoin(a, [c]);
    assert [c][1..] == "";
  }

  lemma CatalogIsNoWork(code: string)
    ensures !IsWorkRecord(code, "resource_catalog")
  {
    var kind := "resource_catalog";
    assert Trimmed(kind);
    TrimIsTrimmed(kind);
    LowerKeeps(kind);
  }

  lemma CoefficientIsNoWork(code: string)
    ensures !IsWorkRecord(code, "coefficient_catalog")
  {
    var kind := "coefficient_catalog";
    assert Trimmed(kind);
    TrimIsTrimmed(kind);
    LowerKeeps(kind);
  }

  lemma NormIsWork(code: string)
    ensures Trim(code) != "" ==>
      (IsWorkRecord(code, "norm") <==> Trim(code)[0] !in {'С', 'C', 'М', 'M', 'Т', 'T'})
  {
    var kind := "norm";
    assert Trimmed(kind);
    TrimIsTrimmed(kind);
    LowerKeeps(kind);
  }

  lemma NoKind()
    ensures Trim("") == "" && Lower("") == ""
  {
  }

  /** A code with the label of a resource is no work, nor is a record of a catalogue; a norm of any other letter is. */
  lemma WorksAndResources(code: string, kind: string)
    ensures IsResourceCode(code) ==> !IsWorkRecord(code, kind)
    ensures !IsWorkRecord(code, "resource_catalog") && !IsWorkRecord(code, "coefficient_catalog")
    ensures Trim(code) != "" ==>
      (IsWorkRecord(code, "norm") <==> Trim(code)[0] !in {'С', 'C', 'М', 'M', 'Т', 'T'})
    ensures Trim(code) != "" ==> (IsWorkRecord(code, "") <==> Trim(code)[0] in {'Е', 'У', 'E', 'U'})
  {
    CatalogIsNoWork(code);
    CoefficientIsNoWork(code);
    NormIsWork(code);
    hide Lower;
    NoKind();
  }

  lemma {:induction false} LowerKeeps(s: string)
    requires forall i :: 0 <= i < |s| ==> !('A' <= s[i] <= 'Z')
    ensures Lower(s) == s
  {
    if s != "" { LowerKeeps(s[1..]); }
  }

  lemma PadTrimmed(part: string)
    ensures Trimmed(PadSegment(part))
  {
    hide Trim;
    hide DigitsText;
    TrimIsTrimmed(part);
    var n := Atoi(Trim(part));
    if n.Some? {
      DigitsTextValue(if n.value >= 0 then n.value else -n.value, if n.value >= 0 then 4 else 3);
      assert IsDigit(PadSegment(part)[|PadSegment(part)| - 1]);
      assert PadSegment(part)[0] == '-' || IsDigit(PadSegment(part)[0]);
    }
  }

  lemma CatalogTrimmed(code: string)
    requires Trimmed(code) && code != ""
    ensures Trimmed(CatalogCode(code)) && CatalogCode(code) != ""
  {
    hide Join;
    hide PadSegment;
    hide Trim;
    hide Split;
    TrimIsTrimmed(code);
    var parts := Split(code, '-');
    if IsResourceCode(code) && |parts| >= 3 {
      var fields := [parts[0]] + PadAll(parts[1..]);
      var last := fields[|fields| - 1];
      HeadOfSplit(code, '-');
      PadTrimmed(parts[|parts| - 1]);
      assert last == PadSegment(parts[|parts| - 1]);
      var front := JoinLast(fields, '-', last);
      JoinStep(fields, '-');
      assert Join(fields, '-')[0] == code[0];
      assert fields[|fields| - 1 := last] == fields;
    }
  }

  lemma HeadOfSplit(s: string, c: char)
    requires s != "" && s[0] != c
    ensures Split(s, c)[0] != "" && Split(s, c)[0][0] == s[0]
  {
  }

  lemma {:induction false} DigitsUnique(a: string, b: string)
    requires AllDigits(a) && AllDigits(b) && |a| == |b| && DigitsValue(a) == DigitsValue(b)
    ensures a == b
  {
    if a != "" {
      var n := |a| - 1;
      DigitsUnique(a[..n], b[..n]);
      assert a == a[..n] + [a[n]] && b == b[..n] + [b[n]];
    }
  }

  lemma PadIs(part: string, padded: string)
    requires part != "" && AllDigits(part) && |padded| == 4 && AllDigits(padded) && DigitsValue(padded) == DigitsValue(part)
    ensures PadSegment(part) == padded
  {
    hide Trim;
    hide DigitsText;
    DigitsBound(padded);
    NumberCode(part);
    DigitsTextValue(DigitsValue(part), 4);
    DigitsUnique(DigitsText(DigitsValue(part), 4), padded);
  }

  /** The catalogue code of a resource has its numbers, all but the first part, written with four digits. */
  lemma CatalogPads(head: string, numbers: seq<string>, padded: seq<string>)
    requires Trimmed(head) && '-' !in head && |head| >= 2 && head[0] in ['С', 'C', 'М', 'M', 'Т', 'T'] && '0' <= head[1] <= '9'
    requires |numbers| == |padded| >= 2
    requires forall i :: 0 <= i < |numbers| ==>
      && numbers[i] != "" && AllDigits(numbers[i]) && |padded[i]| == 4 && AllDigits(padded[i])
      && DigitsValue(padded[i]) == DigitsValue(numbers[i])
    ensures CatalogCode(Join([head] + numbers, '-')) == Join([head] + padded, '-')
  {
    hide DigitsValue;
    hide PadSegment;
    hide Trim;
    hide Split;
    hide Join;
    var fields := [head] + numbers;
    forall f | f in fields ensures '-' !in f { }
    SplitJoin(fields, '-');
    var code := Join(fields, '-');
    var last := numbers[|numbers| - 1];
    assert fields[|fields| - 1] == last && fields[|fields| - 1 := last] == fields;
    var front := JoinLast(fields, '-', last);
    JoinStep(fields, '-');
    assert code[0] == head[0] && code[1] == head[1] && code[|code| - 1] == last[|last| - 1] && IsDigit(last[|last| - 1]);
    TrimIsTrimmed(code);
    forall i | 0 <= i < |numbers| ensures PadSegment(numbers[i]) == padded[i] { PadIs(numbers[i], padded[i]); }
    assert fields[1..] == numbers;
    assert PadAll(numbers) == padded;
  }

  /** A record is found by its code, as written or padded, before any is found by an original code. */
  lemma LookupOrder(db: Database, code: string)
    requires Cipher(code) == code && code != ""
    ensures var padded := CatalogCode(code);
      var found := LookupRecord(db, code);
      && (code in db.records ==> found == Some(db.records[code]))
      && (code !in db.records && padded in db.records ==> found == Some(db.records[padded]))
      && (code !in db.records && padded !in db.records ==>
            && (code in db.byOriginalCode ==> found == Some(db.byOriginalCode[code]))
            && (code !in db.byOriginalCode && padded in db.byOriginalCode ==> found == Some(db.byOriginalCode[padded]))
            && (code !in db.byOriginalCode && padded !in db.byOriginalCode ==> found == None))
  {
    hide Cipher;
    hide Trim;
    CipherShape(code);
    CatalogTrimmed(code);
    TrimIsTrimmed(CatalogCode(code));
    var padded := CatalogCode(code);
    assert Candidates(code) == if padded == code then [code] else [code, padded];
    FirstOfTwo(db.records, code, padded);
    FirstOfTwo(db.byOriginalCode, code, padded);
  }

  lemma FirstOfTwo(table: map<string, RecordRow>, a: string, b: string)
    ensures FirstIn(table, [a]) == if a in table then Some(table[a]) else None
    ensures FirstIn(table, [a, b])
            == if a in table then Some(table[a]) else if b in table then Some(table[b]) else None
  {
    assert [a, b][1..] == [b] && [b][1..] == [] && [a][1..] == [];
  }

  // --- the lookup factors through the normalised parts ------------------------

  datatype Parts = Parts(cipher: string, setId: string, district: string)

  function PartsOf(q: Request): Parts {
    Parts(Cipher(q.code), Trim(q.setId), DistrictKey(q.district))
  }

  lemma UnitPriceFactors(row: SetRow, costIndicators: string, d1: string, d2: string)
    requires DistrictKey(d1) == DistrictKey(d2)
    ensures UnitPrice(row, costIndicators, d1) == UnitPrice(row, costIndicators, d2)
  {
  }

  lemma ResourceFactors(db: Database, row: ResourceRow, s1: string, d1: string, s2: string, d2: string)
    requires Trim(s1) == Trim(s2) && DistrictKey(d1) == DistrictKey(d2)
    ensures BuildResource(db, row, s1, d1) == BuildResource(db, row, s2, d2)
  {
    hide DistrictKey;
    hide Trim;
    hide NumberKey;
    hide UnitPrice;
    var number := NumberKey(row.resourceCode);
    if number in db.codifiers {
      var code := db.codifiers[number].code;
      var found := FindSetRow(db, s1, code);
      if found.Some? && code in db.records {
        UnitPriceFactors(found.value, db.records[code].costIndicators, d1, d2);
      }
    }
  }

  lemma DetailFactors(db: Database, row: RecordRow, s1: string, d1: string, s2: string, d2: string)
    requires Trim(s1) == Trim(s2) && DistrictKey(d1) == DistrictKey(d2)
    ensures DetailOf(db, row, s1, d1) == DetailOf(db, row, s2, d2)
  {
    hide DistrictKey;
    hide Trim;
    hide BuildResource;
    hide UnitPrice;
    hide IsWorkRecord;
    var rows := RowsOf(db, row.code);
    forall i | 0 <= i < |rows|
      ensures BuildResource(db, rows[i], s1, d1) == BuildResource(db, rows[i], s2, d2)
    {
      ResourceFactors(db, rows[i], s1, d1, s2, d2);
    }
    assert BuildAll(db, rows, s1, d1) == BuildAll(db, rows, s2, d2);
    var found := FindSetRow(db, s1, Trim(row.code));
    if found.Some? {
      UnitPriceFactors(found.value, row.costIndicators, d1, d2);
    }
  }

  /** Requests with the same normalised parts have the same uncached answer. */
  lemma UncachedFactors(db: Database, q1: Request, q2: Request)
    requires PartsOf(q1) == PartsOf(q2)
    ensures Uncached(db, q1) == Uncached(db, q2)
  {
    hide Cipher;
    hide DistrictKey;
    hide Trim;
    hide LookupRecord;
    hide DetailOf;
    var found := LookupRecord(db, Cipher(q1.code));
    if found.Some? {
      DetailFactors(db, found.value, q1.setId, q1.district, q2.setId, q2.district);
    }
  }

  /** Asking with the normalised parts themselves gives the same answer. */
  lemma UncachedOfParts(db: Database, q: Request)
    ensures var p := PartsOf(q);
      PartsOf(Request(p.cipher, p.setId, p.district)) == p
      && Uncached(db, Request(p.cipher, p.setId, p.district)) == Uncached(db, q)
  {
    hide Cipher;
    hide DistrictKey;
    hide Trim;
    hide Uncached;
    CipherIdempotent(q.code);
    TrimIsTrimmed(q.setId);
    DistrictKeyIdempotent(q.district);
    var p := PartsOf(q);
    UncachedFactors(db, q, Request(p.cipher, p.setId, p.district));
  }
}

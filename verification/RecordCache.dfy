/**
  The cache in front of the record lookup (backend/internal/gsn). The database is fixed; the
  cache may lose entries at any time.
 */
module RecordCache {
  import opened Text
  import opened Numbers
  import opened RecordLookup
  import opened Wrappers

  // --- the cache ------------------------------------------------------------

  datatype Key = Key(text: string)

  function KeyOfParts(p: Parts): Key {
    Key("gsn:detail:" + (p.cipher + ":" + (p.setId + ":" + p.district)))
  }

  /** recordDetailCacheKey */
  function CacheKey(code: string, setId: string, district: string): Key {
    KeyOfParts(Parts(Cipher(code), Trim(setId), DistrictKey(district)))
  }

  type Cache = map<Key, Detail>

  datatype Outcome = Outcome(answer: Result<Detail>, cache: Cache)

  /** One call: what it answers and what it leaves in the cache. */
  function Call(db: Database, cache: Cache, q: Request): Outcome {
    var cipher := Cipher(q.code);
    if cipher == "" then Outcome(Err(CodeRequired), cache)
    else
      var key := CacheKey(cipher, q.setId, q.district);
      if key in cache then Outcome(Ok(cache[key]), cache)
      else match Uncached(db, q)
        case Err(e) => Outcome(Err(e), cache)
        case Ok(d) => Outcome(Ok(d), cache[key := d])
  }

  class Service {
    const db: Database
    var cache: Cache

    constructor (db: Database)
      ensures this.db == db && cache == map[]
    {
      this.db := db;
      cache := map[];
    }

    /** Entries expire or are evicted. */
    method Evict(keys: set<Key>)
      modifies this
      ensures cache == old(cache) - keys
    {
      cache := cache - keys;
    }

    method ListRecordResources(recordCode: string, setId: string, district: string) returns (items: seq<Resource>)
      ensures items == BuildAll(db, RowsOf(db, recordCode), setId, district)
    {
      hide BuildResource;
      var rows := RowsOf(db, recordCode);
      items := [];
      for i := 0 to |rows|
        invariant items == BuildAll(db, rows, setId, district)[..i]
      {
        items := items + [BuildResource(db, rows[i], setId, district)];
      }
    }

    method GetRecordDetail(q: Request) returns (r: Result<Detail>)
      modifies this
      ensures Outcome(r, cache) == Call(db, old(cache), q)
    {
      hide Cipher;
      hide LookupRecord;
      hide IsWorkRecord;
      hide BuildResource;
      hide SelfPrice;
      hide DistrictKey;
      hide Trim;
      var code := Cipher(q.code);
      if code == "" {
        return Err(CodeRequired);
      }
      var key := CacheKey(code, q.setId, q.district);
      if key in cache {
        return Ok(cache[key]);
      }
      var found := LookupRecord(db, code);
      if found.None? {
        return Err(RecordNotFound);
      }
      var row := found.value;
      var work := IsWorkRecord(row.code, row.kind);
      var detail := Detail(row.code, row.originalCode, row.name, row.unit, work, false, NO_PRICE, row.determinant,
                           row.mass, []);
      if work {
        var resources := ListRecordResources(row.code, q.setId, q.district);
        detail := detail.(resources := resources, hasResources := |resources| > 0);
      } else {
        detail := detail.(price := SelfPrice(db, row, q.setId, q.district));
      }
      detail := detail.(originalCode := Trim(detail.originalCode));
      if detail.originalCode == "" {
        detail := detail.(originalCode := Trim(detail.code));
      }
      cache := cache[key := detail];
      return Ok(detail);
    }
  }

  // --- keys -----------------------------------------------------------------

  lemma FirstColon(a: string, b: string, c: string, d: string)
    requires ':' !in a && ':' !in c && a + ":" + b == c + ":" + d
    ensures a == c && b == d
  {
    IndexOfCharFirst(a, ':', b);
    IndexOfCharFirst(c, ':', d);
    var s := a + ":" + b;
    assert s[..|a|] == a && s[..|c|] == c && s[|a| + 1..] == b && s[|c| + 1..] == d;
  }

  lemma LastColon(a: string, b: string, c: string, d: string)
    requires ':' !in b && ':' !in d && a + ":" + b == c + ":" + d
    ensures a == c && b == d
  {
    LastIndexExact(a, ':', b);
    LastIndexExact(c, ':', d);
    var s := a + ":" + b;
    assert s[..|a|] == a && s[..|c|] == c && s[|a| + 1..] == b && s[|c| + 1..] == d;
  }

  predicate ColonFreeEnds(p: Parts) {
    ':' !in p.cipher && ':' !in p.district
  }

  /** The key gives its parts back when cipher and district hold no colon; the set may. */
  lemma KeyInjective(p: Parts, q: Parts)
    requires ColonFreeEnds(p) && ColonFreeEnds(q) && KeyOfParts(p) == KeyOfParts(q)
    ensures p == q
  {
    var x, y := p.setId + ":" + p.district, q.setId + ":" + q.district;
    var k, l := KeyOfParts(p).text, KeyOfParts(q).text;
    assert k[|"gsn:detail:"|..] == p.cipher + ":" + x && l[|"gsn:detail:"|..] == q.cipher + ":" + y;
    FirstColon(p.cipher, x, q.cipher, y);
    LastColon(p.setId, p.district, q.setId, q.district);
  }

  /** As a text the key has a single reading exactly when no part holds a colon. */
  lemma KeyDecodesIff(p: Parts)
    ensures (forall q :: KeyOfParts(q) == KeyOfParts(p) ==> q == p)
            <==> ':' !in p.cipher && ':' !in p.setId && ':' !in p.district
  {
    if ':' in p.cipher {
      var i := IndexOfChar(p.cipher, ':');
      ShiftColonRight(p, i);
    } else if ':' in p.setId {
      ShiftSetColon(p, IndexOfChar(p.setId, ':'));
    } else if ':' in p.district {
      ShiftDistrictColon(p, IndexOfChar(p.district, ':'));
    } else {
      forall q | KeyOfParts(q) == KeyOfParts(p) ensures q == p {
        OnlyReading(p, q);
      }
    }
  }

  lemma ShiftColonRight(p: Parts, i: nat)
    requires i < |p.cipher| && p.cipher[i] == ':'
    ensures var q := Parts(p.cipher[..i], p.cipher[i + 1..] + ":" + p.setId, p.district);
      KeyOfParts(q) == KeyOfParts(p) && q != p
  {
  }

  lemma ShiftSetColon(p: Parts, i: nat)
    requires i < |p.setId| && p.setId[i] == ':'
    ensures var q := Parts(p.cipher + ":" + p.setId[..i], p.setId[i + 1..], p.district);
      KeyOfParts(q) == KeyOfParts(p) && q != p
  {
  }

  lemma ShiftDistrictColon(p: Parts, i: nat)
    requires i < |p.district| && p.district[i] == ':'
    ensures var q := Parts(p.cipher, p.setId + ":" + p.district[..i], p.district[i + 1..]);
      KeyOfParts(q) == KeyOfParts(p) && q != p
  {
  }

  lemma OnlyReading(p: Parts, q: Parts)
    requires ':' !in p.cipher && ':' !in p.setId && ':' !in p.district && KeyOfParts(q) == KeyOfParts(p)
    ensures q == p
  {
    var k, l := KeyOfParts(p).text, KeyOfParts(q).text;
    var x, y := p.cipher + ":" + (p.setId + ":" + p.district), q.cipher + ":" + (q.setId + ":" + q.district);
    assert k[|"gsn:detail:"|..] == x && l[|"gsn:detail:"|..] == y;
    TwoColons(p.cipher, p.setId, p.district, q.cipher, q.setId, q.district);
  }

  lemma ColonsIn(a: string, b: string, c: string)
    ensures CountChar(a + ":" + (b + ":" + c), ':') == CountChar(a, ':') + CountChar(b, ':') + CountChar(c, ':') + 2
  {
    CountCharJoin(b + ":", c, ':');
    CountCharJoin(b, ":", ':');
    CountCharJoin(a + ":", b + ":" + c, ':');
    CountCharJoin(a, ":", ':');
    assert CountChar(":", ':') == 1;
  }

  lemma TwoColons(a: string, b: string, c: string, d: string, e: string, f: string)
    requires ':' !in a && ':' !in b && ':' !in c
    requires a + ":" + (b + ":" + c) == d + ":" + (e + ":" + f)
    ensures a == d && b == e && c == f
  {
    hide CountChar;
    ColonsIn(a, b, c);
    ColonsIn(d, e, f);
    CountCharZeroIff(a, ':'); CountCharZeroIff(b, ':'); CountCharZeroIff(c, ':');
    CountCharZeroIff(d, ':'); CountCharZeroIff(e, ':');
    FirstColon(a, b + ":" + c, d, e + ":" + f);
    FirstColon(b, c, e, f);
  }

  // --- runs -----------------------------------------------------------------

  datatype Event = Ask(q: Request) | Drop(keys: set<Key>)

  function CacheAfter(db: Database, run: seq<Event>): Cache {
    if run == [] then map[]
    else
      var before := CacheAfter(db, run[..|run| - 1]);
      match run[|run| - 1]
      case Ask(q) => Call(db, before, q).cache
      case Drop(keys) => before - keys
  }

  /** A service answers requests and loses entries in any order. */
  method Perform(db: Database, run: seq<Event>) returns (service: Service)
    ensures fresh(service) && service.db == db && service.cache == CacheAfter(db, run)
  {
    hide Call;
    service := new Service(db);
    for i := 0 to |run|
      invariant fresh(service) && service.db == db && service.cache == CacheAfter(db, run[..i])
    {
      assert run[..i + 1][..i] == run[..i];
      match run[i] {
        case Ask(q) =>
          var answer := service.GetRecordDetail(q);
          assert Call(db, CacheAfter(db, run[..i]), q) == Outcome(answer, service.cache);
        case Drop(keys) => service.Evict(keys);
      }
    }
    assert run[..|run|] == run;
  }

  /** The requests of the run have parts that satisfy ok. */
  ghost predicate AllFrom(run: seq<Event>, ok: Parts -> bool) {
    forall i :: 0 <= i < |run| && run[i].Ask? ==> ok(PartsOf(run[i].q))
  }

  ghost predicate Explains(db: Database, key: Key, d: Detail, q: Request, ok: Parts -> bool) {
    ok(PartsOf(q)) && key == KeyOfParts(PartsOf(q)) && Uncached(db, q) == Ok(d)
  }

  ghost predicate Explained(db: Database, key: Key, d: Detail, ok: Parts -> bool) {
    exists q :: Explains(db, key, d, q, ok)
  }

  /** Every entry is the uncached answer to a request with that key. */
  ghost predicate CacheSound(db: Database, cache: Cache, ok: Parts -> bool) {
    forall key :: key in cache ==> Explained(db, key, cache[key], ok)
  }

  lemma KeyOfRequest(q: Request)
    ensures CacheKey(Cipher(q.code), q.setId, q.district) == KeyOfParts(PartsOf(q))
  {
    hide Cipher;
    CipherIdempotent(q.code);
  }

  lemma CallKeepsSound(db: Database, cache: Cache, q: Request, ok: Parts -> bool)
    requires CacheSound(db, cache, ok) && ok(PartsOf(q))
    ensures CacheSound(db, Call(db, cache, q).cache, ok)
  {
    hide Cipher;
    hide Uncached;
    hide KeyOfParts;
    hide PartsOf;
    KeyOfRequest(q);
    var after := Call(db, cache, q).cache;
    forall key | key in after ensures Explained(db, key, after[key], ok) {
      if key !in cache || after[key] != cache[key] { assert Explains(db, key, after[key], q, ok); }
    }
  }

  lemma {:induction false} RunSound(db: Database, run: seq<Event>, ok: Parts -> bool)
    requires AllFrom(run, ok)
    ensures CacheSound(db, CacheAfter(db, run), ok)
  {
    hide Call;
    hide PartsOf;
    hide Explained;
    if run != [] {
      var before, last := run[..|run| - 1], run[|run| - 1];
      RunSound(db, before, ok);
      if last.Ask? { CallKeepsSound(db, CacheAfter(db, before), last.q, ok); }
    }
  }

  // --- two requests with one key ---------------------------------------------

  /** The parts are those of some request. */
  ghost predicate Normal(p: Parts) {
    Cipher(p.cipher) == p.cipher && Trim(p.setId) == p.setId && DistrictKey(p.district) == p.district
  }

  /** A price list can hold a price for this district, and a set is named. */
  predicate Priceable(p: Parts) {
    p.setId != "" && p.district != "" && ':' !in p.district && '/' !in p.district
  }

  /** Another request with the same key that the database can answer differently. */
  ghost predicate Mixes(p: Parts, r: Parts) {
    && r != p && KeyOfParts(r) == KeyOfParts(p) && Normal(r)
    && p.cipher != "" && r.cipher != ""
    && (r.cipher != p.cipher || Priceable(p) || Priceable(r))
  }

  lemma PartsNormal(q: Request)
    ensures Normal(PartsOf(q))
  {
    hide Cipher;
    hide Trim;
    hide DistrictKey;
    CipherIdempotent(q.code);
    TrimIsTrimmed(q.setId);
    DistrictKeyIdempotent(q.district);
  }

  lemma {:induction false} SplitFree(s: string, c: char)
    ensures forall f :: f in Split(s, c) ==> c !in f
    decreases |s|
  {
    var i := IndexOfChar(s, c);
    if i < |s| {
      SplitFree(s[i + 1..], c);
      assert c !in s[..i];
    }
  }

  lemma ItoaFree(n: int, c: char)
    requires !IsDigit(c) && c != '-'
    ensures c !in Itoa(n)
  {
    hide DigitsText;
    var m := if n < 0 then -n else n;
    DigitsTextValue(m, 1);
    assert forall i :: 0 <= i < |DigitsText(m, 1)| ==> IsDigit(DigitsText(m, 1)[i]);
  }

  lemma RegionFree(region: string, c: char)
    requires c == ':' || c == '/'
    ensures c !in region ==> c !in RegionCode(region)
    ensures c !in Zone(region)
  {
    hide Itoa;
    if c in Trim(region) { TrimChars(region, c); }
    if Atoi(Trim(region)).Some? { ItoaFree(Atoi(Trim(region)).value, c); }
  }

  lemma DistrictFree(district: string, c: char)
    requires (c == ':' || c == '/') && c !in district
    ensures c !in DistrictKey(district)
  {
    hide RegionCode;
    hide Zone;
    var t := Trim(district);
    var dot := IndexOfChar(t, '.');
    if c in t { TrimChars(district, c); }
    RegionFree(t[..dot], c);
    if dot == |t| {
      assert t[..dot] == t;
    } else {
      RegionFree(t[dot + 1..], c);
    }
  }

  lemma {:induction false} NoValue(entries: seq<string>, key: string)
    requires ':' in key || '/' in key
    requires forall e :: e in entries ==> '/' !in e
    ensures FirstValue(entries, key) == ""
  {
    hide DistrictKey;
    if entries != [] {
      var part := Trim(entries[0]);
      var colon := IndexOfChar(part, ':');
      assert entries[0] in entries;
      if '/' in part { TrimChars(entries[0], '/'); }
      assert ':' !in part[..colon] && '/' !in part[..colon];
      DistrictFree(part[..colon], ':');
      DistrictFree(part[..colon], '/');
      NoValue(entries[1..], key);
    }
  }

  lemma NoPick(values: string, district: string)
    requires var key := DistrictKey(district); key == "" || ':' in key || '/' in key
    ensures PickValue(values, district) == ""
  {
    hide DistrictKey;
    hide FirstValue;
    if DistrictKey(district) != "" {
      SplitFree(Trim(values), '/');
      NoValue(Split(Trim(values), '/'), DistrictKey(district));
    }
  }

  lemma NoSetPrice(db: Database, setId: string, code: string, costIndicators: string, district: string)
    requires !Priceable(Parts("", Trim(setId), DistrictKey(district)))
    ensures match FindSetRow(db, setId, code)
            case None => true
            case Some(row) => UnitPrice(row, costIndicators, district) == NO_PRICE
  {
    hide PickValue;
    hide DistrictKey;
    hide BasePrice;
    var found := FindSetRow(db, setId, code);
    if found.Some? {
      NoPick(Trim(found.value.prices), district);
      NoPick(Trim(found.value.indexes), district);
    }
  }

  lemma NoResourcePrice(db: Database, row: ResourceRow, s1: string, d1: string, s2: string, d2: string)
    requires !Priceable(Parts("", Trim(s1), DistrictKey(d1))) && !Priceable(Parts("", Trim(s2), DistrictKey(d2)))
    ensures BuildResource(db, row, s1, d1) == BuildResource(db, row, s2, d2)
  {
    hide FindSetRow;
    hide UnitPrice;
    hide DistrictKey;
    hide Priceable;
    hide NumberKey;
    var number := NumberKey(row.resourceCode);
    if number in db.codifiers && db.codifiers[number].code in db.records {
      var code := db.codifiers[number].code;
      NoSetPrice(db, s1, code, db.records[code].costIndicators, d1);
      NoSetPrice(db, s2, code, db.records[code].costIndicators, d2);
    }
  }

  /** Without a price list entry, set and district do not matter. */
  lemma UnpricedDetail(db: Database, row: RecordRow, s1: string, d1: string, s2: string, d2: string)
    requires !Priceable(Parts("", Trim(s1), DistrictKey(d1))) && !Priceable(Parts("", Trim(s2), DistrictKey(d2)))
    ensures DetailOf(db, row, s1, d1) == DetailOf(db, row, s2, d2)
  {
    hide FindSetRow;
    hide UnitPrice;
    hide DistrictKey;
    hide Priceable;
    hide IsWorkRecord;
    hide BuildResource;
    var rows := RowsOf(db, row.code);
    forall i | 0 <= i < |rows| ensures BuildResource(db, rows[i], s1, d1) == BuildResource(db, rows[i], s2, d2) {
      NoResourcePrice(db, rows[i], s1, d1, s2, d2);
    }
    assert BuildAll(db, rows, s1, d1) == BuildAll(db, rows, s2, d2);
    NoSetPrice(db, s1, Trim(row.code), row.costIndicators, d1);
    NoSetPrice(db, s2, Trim(row.code), row.costIndicators, d2);
  }

  /** Requests that do not mix have one answer for one key. */
  lemma OneAnswer(db: Database, q: Request, r: Request)
    requires KeyOfParts(PartsOf(r)) == KeyOfParts(PartsOf(q)) && !Mixes(PartsOf(q), PartsOf(r))
    requires PartsOf(q).cipher != "" && PartsOf(r).cipher != ""
    ensures Uncached(db, q) == Uncached(db, r)
  {
    hide Cipher;
    hide Trim;
    hide DistrictKey;
    hide KeyOfParts;
    hide LookupRecord;
    hide DetailOf;
    hide Normal;
    PartsNormal(r);
    if PartsOf(q) == PartsOf(r) {
      UncachedFactors(db, q, r);
    } else {
      var found := LookupRecord(db, Cipher(q.code));
      if found.Some? { UnpricedDetail(db, found.value, q.setId, q.district, r.setId, r.district); }
    }
  }

  // --- databases that tell two requests apart ----------------------------------

  function CatalogRow(code: string, name: string): RecordRow {
    RecordRow(code, code, name, "", "", "", "resource_catalog", "")
  }

  function TwoRecords(a: string, b: string): Database {
    Database(map[a := CatalogRow(a, "1"), b := CatalogRow(b, "2")], map[], map[], map[], map[])
  }

  /** One record priced in one set for one district. */
  function PricedIn(code: string, setId: string, district: string): Database {
    Database(map[code := CatalogRow(code, "")], map[], map[], map[],
             map[SetKey(setId, code) := SetRow(district + ":1", "")])
  }

  function RequestOf(p: Parts): Request {
    Request(p.cipher, p.setId, p.district)
  }

  lemma FindsExact(db: Database, cipher: string)
    requires cipher != "" && Cipher(cipher) == cipher && cipher in db.records
    ensures LookupRecord(db, cipher) == Some(db.records[cipher])
  {
  }

  lemma CipherTrimmed(cipher: string)
    requires Cipher(cipher) == cipher
    ensures Trim(cipher) == cipher
  {
    CipherShape(cipher);
    TrimIsTrimmed(cipher);
  }

  /** Requests for different records. */
  lemma NamesDiffer(p: Parts, r: Parts)
    requires Normal(p) && Normal(r) && p.cipher != "" && r.cipher != "" && p.cipher != r.cipher
    ensures var db := TwoRecords(r.cipher, p.cipher);
      Uncached(db, RequestOf(r)).Ok? && Uncached(db, RequestOf(r)) != Uncached(db, RequestOf(p))
  {
    hide Cipher;
    hide Trim;
    hide DistrictKey;
    hide LookupRecord;
    hide IsWorkRecord;
    hide SelfPrice;
    hide BuildAll;
    var db := TwoRecords(r.cipher, p.cipher);
    FindsExact(db, r.cipher);
    FindsExact(db, p.cipher);
    assert Uncached(db, RequestOf(r)).value.name == "1" && Uncached(db, RequestOf(p)).value.name == "2";
  }

  lemma DistrictTrimmed(district: string)
    requires DistrictKey(district) == district
    ensures Trimmed(district)
  {
    hide RegionCode;
    hide Zone;
    var t := Trim(district);
    var dot := IndexOfChar(t, '.');
    RegionIdempotent(t[..dot]);
    if dot == |t| {
      assert t[..dot] == t;
    } else {
      ZoneIdempotent(t[dot + 1..]);
    }
  }

  lemma PriceInDistrict(district: string)
    requires district != "" && DistrictKey(district) == district
    requires ':' !in district && '/' !in district
    ensures PickValue(district + ":1", district) == "1"
  {
    DistrictTrimmed(district);
    hide DistrictKey;
    var entry := district + ":1";
    assert entry[0] == district[0] && entry[|entry| - 1] == '1' && Trimmed(entry);
    TrimIsTrimmed(entry);
    TrimIsTrimmed("1");
    IndexOfCharNone(entry, '/');
    IndexOfCharFirst(district, ':', "1");
    assert entry == district + [':'] + "1";
    assert entry[..|district|] == district && entry[|district| + 1..] == "1";
    assert Split(entry, '/') == [entry];
  }

  /** Requests for one record in different sets, one of them with a price. */
  lemma PricesDiffer(p: Parts, r: Parts)
    requires Normal(p) && Normal(r) && p.cipher != "" && p.cipher == r.cipher && p.setId != r.setId && Priceable(r)
    ensures var db := PricedIn(r.cipher, r.setId, r.district);
      Uncached(db, RequestOf(r)).Ok? && Uncached(db, RequestOf(p)).Ok?
      && Uncached(db, RequestOf(r)) != Uncached(db, RequestOf(p))
  {
    hide Cipher;
    hide Trim;
    hide DistrictKey;
    hide LookupRecord;
    hide IsWorkRecord;
    hide PickValue;
    hide BuildAll;
    var db := PricedIn(r.cipher, r.setId, r.district);
    FindsExact(db, r.cipher);
    CipherTrimmed(r.cipher);
    DistrictTrimmed(r.district);
    CatalogIsNoWork(r.cipher);
    var list := r.district + ":1";
    assert list[0] == r.district[0] && list[|list| - 1] == '1' && Trimmed(list);
    TrimIsTrimmed(list);
    PriceInDistrict(r.district);
    assert Uncached(db, RequestOf(r)).value.price == Price("1", "");
    assert FindSetRow(db, p.setId, p.cipher) == None;
    assert Uncached(db, RequestOf(p)).value.price == NO_PRICE;
  }

  lemma TellApart(p: Parts, r: Parts) returns (db: Database)
    requires Normal(p) && Mixes(p, r)
    ensures Uncached(db, RequestOf(r)).Ok? && Uncached(db, RequestOf(r)) != Uncached(db, RequestOf(p))
  {
    hide Normal;
    hide Uncached;
    if r.cipher != p.cipher {
      NamesDiffer(p, r);
      db := TwoRecords(r.cipher, p.cipher);
    } else {
      if p.setId == r.setId { SameSetSameDistrict(p, r); }
      if Priceable(r) {
        PricesDiffer(p, r);
        db := PricedIn(r.cipher, r.setId, r.district);
      } else {
        PricesDiffer(r, p);
        db := PricedIn(p.cipher, p.setId, p.district);
      }
    }
  }

  lemma SameSetSameDistrict(p: Parts, r: Parts)
    requires KeyOfParts(p) == KeyOfParts(r) && p.cipher == r.cipher && p.setId == r.setId
    ensures p == r
  {
    var k, l := KeyOfParts(p).text, KeyOfParts(r).text;
    var n := |"gsn:detail:"| + |p.cipher| + 1 + |p.setId| + 1;
    assert k[n..] == p.district && l[n..] == r.district;
  }

  // --- when the cache can be seen ----------------------------------------------

  ghost predicate Answers(db: Database, run: seq<Event>, q: Request) {
    Call(db, CacheAfter(db, run), q).answer == Uncached(db, q)
  }

  /** After any calls and evictions of this kind a call answers what the database would. */
  ghost predicate Transparent(q: Request, ok: Parts -> bool) {
    forall db, run :: AllFrom(run, ok) ==> Answers(db, run, q)
  }

  /** A sound cache answers as the database would. */
  lemma CallSound(db: Database, cache: Cache, q: Request, ok: Parts -> bool)
    requires CacheSound(db, cache, ok)
    requires forall r :: Mixes(PartsOf(q), r) ==> !ok(r)
    ensures Call(db, cache, q).answer == Uncached(db, q)
  {
    hide Cipher;
    hide Trim;
    hide DistrictKey;
    hide DetailOf;
    hide LookupRecord;
    hide KeyOfParts;
    hide Mixes;
    KeyOfRequest(q);
    var key := KeyOfParts(PartsOf(q));
    if Cipher(q.code) != "" && key in cache {
      assert Explained(db, key, cache[key], ok);
      var other :| Explains(db, key, cache[key], other, ok);
      OneAnswer(db, q, other);
    }
  }

  lemma MixedUp(q: Request, r: Parts, ok: Parts -> bool)
    requires ok(r) && Mixes(PartsOf(q), r)
    ensures !Transparent(q, ok)
  {
    var p, first := PartsOf(q), RequestOf(r);
    PartsNormal(q);
    assert PartsOf(first) == r;
    var db := TellApart(p, r);
    UncachedOfParts(db, q);
    KeyOfRequest(first);
    KeyOfRequest(q);
    hide Cipher;
    hide Trim;
    hide DistrictKey;
    hide Uncached;
    hide KeyOfParts;
    var run := [Ask(first)];
    assert run[..0] == [] && CacheAfter(db, []) == map[];
    assert CacheAfter(db, run) == Call(db, map[], first).cache;
    assert AllFrom(run, ok);
    assert !Answers(db, run, q);
  }

  /** Exactly the requests whose key has no other reading with another answer do not notice the cache. */
  lemma TransparentIff(q: Request, ok: Parts -> bool)
    ensures Transparent(q, ok) <==> forall r :: Mixes(PartsOf(q), r) ==> !ok(r)
  {
    hide Mixes;
    hide AllFrom;
    hide PartsOf;
    if r :| Mixes(PartsOf(q), r) && ok(r) {
      MixedUp(q, r, ok);
    } else {
      forall db, run | AllFrom(run, ok) ensures Answers(db, run, q) {
        RunSound(db, run, ok);
        CallSound(db, CacheAfter(db, run), q, ok);
      }
    }
  }

  predicate NoColon(p: Parts) {
    ':' !in p.cipher && ':' !in p.setId && ':' !in p.district
  }

  /** A request without colons is answered as the database would, whatever was asked before. */
  lemma CacheIsTransparent(db: Database, run: seq<Event>, q: Request)
    requires NoColon(PartsOf(q))
    ensures Call(db, CacheAfter(db, run), q).answer == Uncached(db, q)
  {
    hide PartsOf;
    hide Call;
    KeyDecodesIff(PartsOf(q));
    TransparentIff(q, p => true);
    assert AllFrom(run, p => true);
    assert Answers(db, run, q);
  }

  /** What follows the first colon of the record code, and what precedes the last one of the district. */
  function AfterFirst(cipher: string): string {
    var i := IndexOfChar(cipher, ':');
    if i < |cipher| then cipher[i + 1..] + ":" else ""
  }

  function BeforeLast(district: string): string {
    var j := LastIndexOf(district, ':');
    if j < |district| then ":" + district[..j] else ""
  }

  function LastPiece(district: string): string {
    var j := LastIndexOf(district, ':');
    if j < |district| then district[j + 1..] else district
  }

  /** The reading of the key that cuts at the first and at the last colon. */
  function Outer(p: Parts): Parts {
    Parts(p.cipher[..IndexOfChar(p.cipher, ':')], AfterFirst(p.cipher) + p.setId + BeforeLast(p.district),
          LastPiece(p.district))
  }

  lemma CutFirst(cipher: string)
    ensures cipher + ":" == cipher[..IndexOfChar(cipher, ':')] + ":" + AfterFirst(cipher)
  {
    var i := IndexOfChar(cipher, ':');
    if i < |cipher| {
      CutAround(cipher, i);
    } else {
      assert cipher[..i] == cipher;
    }
  }

  lemma CutAround(s: string, i: nat)
    requires i < |s| && s[i] == ':'
    ensures s == s[..i] + ":" + s[i + 1..] && s + ":" == s[..i] + ":" + (s[i + 1..] + ":")
  {
  }

  lemma CutLast(district: string)
    ensures ":" + district == BeforeLast(district) + ":" + LastPiece(district)
    ensures ':' !in LastPiece(district)
  {
    var j := LastIndexOf(district, ':');
    if j < |district| { CutAround(district, j); }
  }

  lemma OuterReads(p: Parts)
    ensures KeyOfParts(Outer(p)) == KeyOfParts(p) && ColonFreeEnds(Outer(p))
  {
    CutFirst(p.cipher);
    CutLast(p.district);
    hide AfterFirst;
    hide BeforeLast;
    hide LastPiece;
    var a, left, right, z := p.cipher[..IndexOfChar(p.cipher, ':')], AfterFirst(p.cipher), BeforeLast(p.district),
                             LastPiece(p.district);
    calc {
      p.cipher + ":" + (p.setId + ":" + p.district);
      (p.cipher + ":") + p.setId + (":" + p.district);
      (a + ":" + left) + p.setId + (right + ":" + z);
      a + ":" + ((left + p.setId + right) + ":" + z);
    }
  }

  /**
    While the other requests keep colons out of record code and district, a request is answered
    as the database would exactly when the outer reading of its key is not another request.
   */
  lemma TransparentAmongColonFree(q: Request)
    ensures Transparent(q, ColonFreeEnds) <==> !Mixes(PartsOf(q), Outer(PartsOf(q)))
    ensures ColonFreeEnds(PartsOf(q)) ==> Transparent(q, ColonFreeEnds)
  {
    var p := PartsOf(q);
    hide PartsOf;
    TransparentIff(q, ColonFreeEnds);
    OuterReads(p);
    if ColonFreeEnds(p) { KeyInjective(p, Outer(p)); }
    forall r | Mixes(p, r) && ColonFreeEnds(r) ensures r == Outer(p) {
      KeyInjective(r, Outer(p));
    }
  }
}

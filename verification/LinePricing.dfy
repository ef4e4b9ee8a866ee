/** Pricing of one line and its merged resources (backend/internal/estimatecalc). */
module LinePricing {
  import opened Text
  import opened Numbers
  import opened Wrappers

  datatype Resource = Resource(code: string, determinant: string, name: string, unit: string, mass: string,
                               unitPriceText: string, unitPriceIndex: string, quantityText: string)
  datatype Record = Record(code: string, originalCode: string, name: string, unit: string, determinant: string,
                           mass: string, isWork: bool, unitPriceText: string, unitPriceIndex: string,
                           resources: seq<Resource>)

  datatype Error = NegativeQuantity | NoResources | BadPrice | BadResource(code: string)
  datatype Result<+T> = Ok(value: T) | Err(error: Error)

  datatype Pricing = Pricing(quantity: real, unitPrice: real, total: real)
  datatype Contribution = Contribution(code: string, determinant: string, consumption: real, name: string,
                                       unit: string, estimatePrice: real, mass: string)
  datatype Snapshot = Snapshot(code: string, originalCode: string, name: string, unit: string, determinant: string,
                               quantity: real, unitPrice: real, total: real, resources: seq<Contribution>)

  function Cost(price: real, quantity: real): real {
    price * quantity
  }

  function RoundMoney(value: real): real {
    RoundHalfAway(value * 100.0) as real / 100.0
  }

  lemma RoundMoneyIsNear(value: real)
    ensures Abs(RoundMoney(value) - value) <= 0.005
  {
  }

  function ParseLocalizedNumber(raw: string): Option<real> {
    var normalized := ReplaceAll(ReplaceAll(Trim(raw), " ", ""), ",", ".");
    if normalized == "" then Some(0.0) else ParseDecimal(normalized)
  }

  /** base price times index; the index may be glued to the price after a star */
  function ResourceUnitPrice(unitPriceText: string, unitPriceIndex: string): Option<real> {
    var text, index := Trim(unitPriceText), Trim(unitPriceIndex);
    var star := IndexOfChar(text, '*');
    var indexText := if star < |text| && index == "" then Trim(text[star + 1..]) else index;
    var baseText := if star < |text| then Trim(text[..star]) else text;
    match (ParseLocalizedNumber(baseText), ParseLocalizedNumber(indexText))
    case (Some(base), Some(i)) => Some(if i != 0.0 then Cost(base, i) else base)
    case _ => None
  }

  function ParseResourceQuantity(text: string): Option<real> {
    var normalized := ReplaceAll(Trim(text), " ", "");
    if normalized == "" || normalized == "П" || normalized == "п" then Some(0.0)
    else ParseDecimal(ReplaceAll(normalized, ",", "."))
  }

  // --- printed prices and quantities -------------------------------------------

  /** Digits, with at most one comma or point among them. */
  predicate WritesUnsigned(text: string, v: real) {
    || (text != "" && AllDigits(text) && v == DigitsValue(text) as real)
    || exists i :: 0 <= i < |text| && WritesPointed(text, i, v)
  }

  predicate WritesPointed(text: string, i: nat, v: real)
    requires i < |text|
  {
    && (text[i] == ',' || text[i] == '.') && |text| > 1 && AllDigits(text[..i]) && AllDigits(text[i + 1..])
    && v == DigitsValue(text[..i]) as real + DigitsValue(text[i + 1..]) as real / Pow10(|text| - i - 1)
  }

  /** With a sign in front or without. */
  predicate WritesSigned(text: string, v: real) {
    if text != "" && text[0] == '-' then WritesUnsigned(text[1..], -v)
    else if text != "" && text[0] == '+' then WritesUnsigned(text[1..], v)
    else WritesUnsigned(text, v)
  }

  /** An amount with any spaces: nothing stands for zero. */
  predicate IsAmount(raw: string, v: real) {
    var text := ReplaceAll(Trim(raw), " ", "");
    if text == "" then v == 0.0 else WritesSigned(text, v)
  }

  lemma {:induction false} PointsForCommas(s: string)
    ensures var r := ReplaceAll(s, ",", ".");
      |r| == |s| && forall i :: 0 <= i < |s| ==> r[i] == if s[i] == ',' then '.' else s[i]
  {
    if s != "" {
      PointsForCommas(s[1..]);
      assert s[..1] == [s[0]];
    }
  }

  lemma WholeUnsigned(text: string, pointed: string, v: real)
    requires |pointed| == |text| && forall i :: 0 <= i < |text| ==> pointed[i] == if text[i] == ',' then '.' else text[i]
    requires '.' !in pointed
    ensures ParseUnsigned(pointed) == Some(v) <==> WritesUnsigned(text, v)
  {
    hide DigitsValue;
    assert pointed == text;
    IndexOfCharNone(pointed, '.');
    assert Pow10(0) == 1.0;
    if AllDigits(text) && text != "" { WholeValue(text); }
    forall i: nat | i < |text| ensures !WritesPointed(text, i, v) {
      assert pointed[i] in pointed;
    }
  }

  lemma PointedUnsigned(text: string, pointed: string, v: real)
    requires |pointed| == |text| && forall i :: 0 <= i < |text| ==> pointed[i] == if text[i] == ',' then '.' else text[i]
    requires '.' in pointed
    ensures ParseUnsigned(pointed) == Some(v) <==> WritesUnsigned(text, v)
  {
    hide DigitsValue;
    hide Pow10;
    var i := IndexOfChar(pointed, '.');
    assert i < |text| && (text[i] == ',' || text[i] == '.') && !IsDigit(text[i]);
    assert forall j :: 0 <= j < i ==> pointed[j] == text[j] by { assert forall j :: 0 <= j < i ==> pointed[j] != '.'; }
    assert pointed[..i] == text[..i];
    if AllDigits(pointed[i + 1..]) || AllDigits(text[i + 1..]) {
      SameDigits(pointed[i + 1..], text[i + 1..]);
    }
    assert ParseUnsigned(pointed) == Some(v) <==> WritesPointed(text, i, v);
    if k: nat :| k < |text| && WritesPointed(text, k, v) { OnePoint(text, i, k, v); }
  }

  lemma SameDigits(pointed: string, text: string)
    requires |pointed| == |text| && forall i :: 0 <= i < |text| ==> pointed[i] == if text[i] == ',' then '.' else text[i]
    requires AllDigits(pointed) || AllDigits(text)
    ensures pointed == text
  {
    forall i | 0 <= i < |text| ensures pointed[i] == text[i] { }
  }

  lemma OnePoint(text: string, i: nat, k: nat, v: real)
    requires i < |text| && k < |text| && WritesPointed(text, k, v) && !IsDigit(text[i]) && AllDigits(text[..i])
    ensures k == i
  {
    hide DigitsValue;
    hide Pow10;
    assert forall j :: 0 <= j < i ==> IsDigit(text[..i][j]) && text[..i][j] == text[j];
    assert forall j :: k < j < |text| ==> IsDigit(text[k + 1..][j - k - 1]) && text[k + 1..][j - k - 1] == text[j];
  }

  lemma UnsignedWrites(text: string, pointed: string, v: real)
    requires |pointed| == |text| && forall i :: 0 <= i < |text| ==> pointed[i] == if text[i] == ',' then '.' else text[i]
    ensures ParseUnsigned(pointed) == Some(v) <==> WritesUnsigned(text, v)
  {
    if '.' in pointed { PointedUnsigned(text, pointed, v); } else { WholeUnsigned(text, pointed, v); }
  }

  lemma SignedWrites(text: string, v: real)
    requires text != ""
    ensures ParseDecimal(ReplaceAll(text, ",", ".")) == Some(v) <==> WritesSigned(text, v)
  {
    hide ParseUnsigned;
    hide WritesUnsigned;
    var pointed := ReplaceAll(text, ",", ".");
    PointsForCommas(text);
    UnsignedWrites(text, pointed, v);
    UnsignedWrites(text[1..], pointed[1..], if text[0] == '-' then -v else v);
  }

  /** A price or an index is read exactly if it is an amount. */
  lemma NumberIffAmount(raw: string, v: real)
    ensures ParseLocalizedNumber(raw) == Some(v) <==> IsAmount(raw, v)
  {
    hide ParseDecimal;
    hide WritesSigned;
    hide Trim;
    var text := ReplaceAll(Trim(raw), " ", "");
    PointsForCommas(text);
    if text != "" { SignedWrites(text, v); }
  }

  /** A consumption is an amount, or the letter that says it is set by the project. */
  lemma QuantityIffAmount(raw: string, v: real)
    ensures var text := ReplaceAll(Trim(raw), " ", "");
      ParseResourceQuantity(raw) == Some(v) <==> if text == "П" || text == "п" then v == 0.0 else IsAmount(raw, v)
  {
    hide ParseDecimal;
    hide WritesSigned;
    hide Trim;
    var text := ReplaceAll(Trim(raw), " ", "");
    if text != "" { SignedWrites(text, v); }
  }

  /** Base times index, or the base alone if the index is zero. */
  ghost predicate IsPrice(price: real, base: string, index: string) {
    exists b, i :: IsAmount(base, b) && IsAmount(index, i) && price == if i != 0.0 then b * i else b
  }

  lemma NumberTrims(raw: string)
    ensures ParseLocalizedNumber(Trim(raw)) == ParseLocalizedNumber(raw)
  {
    TrimIsTrimmed(raw);
  }

  lemma PriceOf(base: string, index: string, price: real)
    ensures (match (ParseLocalizedNumber(base), ParseLocalizedNumber(index))
             case (Some(b), Some(i)) => Some(if i != 0.0 then Cost(b, i) else b)
             case _ => None) == Some(price)
            <==> IsPrice(price, base, index)
  {
    hide ParseLocalizedNumber;
    hide IsAmount;
    var b, i := ParseLocalizedNumber(base), ParseLocalizedNumber(index);
    if b.Some? && i.Some? {
      NumberIffAmount(base, b.value);
      NumberIffAmount(index, i.value);
      assert Cost(b.value, i.value) == b.value * i.value;
    }
    if x, y :| IsAmount(base, x) && IsAmount(index, y) && price == if y != 0.0 then x * y else x {
      NumberIffAmount(base, x);
      NumberIffAmount(index, y);
      assert Cost(x, y) == x * y;
    }
  }

  /** A price without a star has its index beside it. */
  lemma PlainPrice(text: string, index: string, price: real)
    requires '*' !in text
    ensures ResourceUnitPrice(text, index) == Some(price) <==> IsPrice(price, text, index)
  {
    hide ParseLocalizedNumber;
    hide IsPrice;
    hide Cost;
    hide Trim;
    if '*' in Trim(text) { TrimChars(text, '*'); }
    IndexOfCharNone(Trim(text), '*');
    NumberTrims(text);
    NumberTrims(index);
    PriceOf(text, index, price);
  }

  /** Behind a star the text holds an index of its own, which counts only when no other is given. */
  lemma StarredPrice(base: string, glued: string, index: string, price: real)
    requires '*' !in base
    ensures ResourceUnitPrice(base + "*" + glued, index) == Some(price)
            <==> IsPrice(price, base, if Blank(index) then glued else index)
  {
    hide ParseLocalizedNumber;
    hide IsPrice;
    hide Cost;
    hide TrimLeft;
    hide TrimRight;
    var a, c := TrimLeft(base), TrimRight(glued);
    TrimAround(base, "*", glued);
    if '*' in a { TrimLeftChars(base, '*'); }
    IndexOfCharFirst(a, '*', c);
    var text := a + "*" + c;
    assert text == a + ['*'] + c && text[..|a|] == a && text[|a| + 1..] == c;
    TrimTrimmedLeft(base);
    TrimTrimmedRight(glued);
    BlankIffTrimsToEmpty(index);
    NumberTrims(base);
    NumberTrims(glued);
    NumberTrims(index);
    PriceOf(base, if Blank(index) then glued else index, price);
  }

  /** Halves of a cent go away from zero. */
  lemma RoundMoneyIs(value: real, cents: nat)
    requires value >= 0.0 && cents as real - 0.5 <= value * 100.0 < cents as real + 0.5
    ensures RoundMoney(value) == cents as real / 100.0 && RoundMoney(-value) == -RoundMoney(value)
  {
    hide RoundHalfAway;
    RoundHalfAwayIs(value * 100.0, cents);
    assert -value * 100.0 == -(value * 100.0);
  }

  // --- what a resource means ------------------------------------------------

  /** A resource with its texts read and trimmed. */
  datatype Priced = Priced(code: string, determinant: string, name: string, unit: string, mass: string,
                           price: real, perUnit: real)

  function ReadResource(r: Resource): Option<Priced> {
    match (ResourceUnitPrice(r.unitPriceText, r.unitPriceIndex), ParseResourceQuantity(r.quantityText))
    case (Some(price), Some(perUnit)) =>
      Some(Priced(Trim(r.code), Trim(r.determinant), Trim(r.name), Trim(r.unit), Trim(r.mass), price, perUnit))
    case _ => None
  }

  predicate AllParse(rs: seq<Resource>) {
    forall i :: 0 <= i < |rs| ==> ReadResource(rs[i]).Some?
  }

  function ReadAll(rs: seq<Resource>): (ps: seq<Priced>)
    requires AllParse(rs)
    ensures |ps| == |rs|
  {
    if rs == [] then [] else ReadAll(rs[..|rs| - 1]) + [ReadResource(rs[|rs| - 1]).value]
  }

  lemma ReadAllSnoc(rs: seq<Resource>, i: nat)
    requires i < |rs| && AllParse(rs[..i]) && ReadResource(rs[i]).Some?
    ensures AllParse(rs[..i + 1]) && ReadAll(rs[..i + 1]) == ReadAll(rs[..i]) + [ReadResource(rs[i]).value]
  {
    hide ReadResource;
    var r := rs[..i + 1];
    assert r[..|r| - 1] == rs[..i];
  }

  /** Sum of price times consumption, unrounded. */
  function UnroundedTotal(ps: seq<Priced>, quantity: real): real {
    if ps == [] then 0.0
    else
      var last := ps[|ps| - 1];
      UnroundedTotal(ps[..|ps| - 1], quantity) + Cost(last.price, last.perUnit * quantity)
  }

  lemma UnroundedTotalSnoc(ps: seq<Priced>, p: Priced, quantity: real)
    ensures UnroundedTotal(ps + [p], quantity) == UnroundedTotal(ps, quantity) + Cost(p.price, p.perUnit * quantity)
  {
  }

  /** The loop over the resources of a work position. */
  method SumResources(rs: seq<Resource>, quantity: real) returns (total: Result<real>)
    ensures total.Ok? <==> AllParse(rs)
    ensures total.Ok? ==> total.value == UnroundedTotal(ReadAll(rs), quantity)
  {
    hide ReadResource;
    var sum := 0.0;
    for i := 0 to |rs|
      invariant AllParse(rs[..i])
      invariant sum == UnroundedTotal(ReadAll(rs[..i]), quantity)
    {
      var p := ReadResource(rs[i]);
      if p.None? {
        return Err(BadResource(rs[i].code));
      }
      ReadAllSnoc(rs, i);
      UnroundedTotalSnoc(ReadAll(rs[..i]), p.value, quantity);
      sum := sum + Cost(p.value.price, p.value.perUnit * quantity);
    }
    assert rs[..|rs|] == rs;
    return Ok(sum);
  }

  predicate CanPrice(record: Record, quantity: real) {
    && quantity >= 0.0
    && if record.isWork then record.resources != [] && AllParse(record.resources)
       else ResourceUnitPrice(record.unitPriceText, record.unitPriceIndex).Some?
  }

  function WorkPricing(total: real, quantity: real): Pricing {
    Pricing(quantity, if quantity > 0.0 then RoundMoney(total / quantity) else total, RoundMoney(total))
  }

  function OwnPricing(price: real, quantity: real): Pricing {
    Pricing(quantity, RoundMoney(price), RoundMoney(Cost(RoundMoney(price), quantity)))
  }

  method LinePricingFromRecord(record: Record, quantity: real) returns (r: Result<Pricing>)
    ensures r.Ok? <==> CanPrice(record, quantity)
    ensures r.Ok? ==>
      r.value == if record.isWork then WorkPricing(UnroundedTotal(ReadAll(record.resources), quantity), quantity)
                 else OwnPricing(ResourceUnitPrice(record.unitPriceText, record.unitPriceIndex).value, quantity)
  {
    hide ResourceUnitPrice;
    hide ReadResource;
    if quantity < 0.0 {
      return Err(NegativeQuantity);
    }
    if !record.isWork {
      var price := ResourceUnitPrice(record.unitPriceText, record.unitPriceIndex);
      if price.None? {
        return Err(BadPrice);
      }
      var own := RoundMoney(price.value);
      return Ok(Pricing(quantity, own, RoundMoney(Cost(own, quantity))));
    }
    if |record.resources| == 0 {
      return Err(NoResources);
    }
    var sum := SumResources(record.resources, quantity);
    if sum.Err? {
      return Err(sum.error);
    }
    var total := sum.value;
    var unitPrice := total;
    if quantity > 0.0 {
      unitPrice := RoundMoney(total / quantity);
    }
    return Ok(Pricing(quantity, unitPrice, RoundMoney(total)));
  }

  lemma ScaledBound(d: real, q: real)
    requires Abs(d) <= 0.005 && q >= 0.0
    ensures Abs(Cost(d, q)) <= 0.005 * q
  {
    if d >= 0.0 {
      assert d * q <= 0.005 * q && d * q >= 0.0;
    } else {
      assert (-d) * q <= 0.005 * q && (-d) * q >= 0.0;
    }
  }

  /**
    Unit price times quantity misses the line total by at most half a cent per unit and half a
    cent, and by half a cent for a line priced on its own.
   */
  lemma UnitPriceConsistent(total: real, price: real, quantity: real)
    requires quantity > 0.0
    ensures var p := WorkPricing(total, quantity);
      Abs(Cost(p.unitPrice, quantity) - p.total) <= 0.005 * quantity + 0.005
    ensures var p := OwnPricing(price, quantity);
      Abs(Cost(p.unitPrice, quantity) - p.total) <= 0.005
      && Abs(p.total - Cost(price, quantity)) <= 0.005 * quantity + 0.005
  {
    WorkPriceConsistent(total, quantity);
    OwnPriceConsistent(price, quantity);
  }

  lemma OwnPriceConsistent(price: real, quantity: real)
    requires quantity > 0.0
    ensures var p := OwnPricing(price, quantity);
      Abs(Cost(p.unitPrice, quantity) - p.total) <= 0.005
      && Abs(p.total - Cost(price, quantity)) <= 0.005 * quantity + 0.005
  {
    hide RoundMoney;
    var own := RoundMoney(price);
    RoundMoneyIsNear(price);
    RoundMoneyIsNear(Cost(own, quantity));
    var d := own - price;
    assert Cost(own, quantity) - Cost(price, quantity) == Cost(d, quantity);
    ScaledBound(d, quantity);
    AbsTriangle(OwnPricing(price, quantity).total - Cost(own, quantity), Cost(d, quantity));
  }

  lemma WorkPriceConsistent(total: real, quantity: real)
    requires quantity > 0.0
    ensures var p := WorkPricing(total, quantity);
      Abs(Cost(p.unitPrice, quantity) - p.total) <= 0.005 * quantity + 0.005
  {
    hide RoundMoney;
    RoundMoneyIsNear(total / quantity);
    RoundMoneyIsNear(total);
    var p, u := WorkPricing(total, quantity), total / quantity;
    var d, e := RoundMoney(u) - u, RoundMoney(total) - total;
    assert Cost(u, quantity) == total;
    assert Cost(RoundMoney(u), quantity) == Cost(u + d, quantity) == total + Cost(d, quantity);
    ScaledBound(d, quantity);
    AbsTriangle(Cost(d, quantity), -e);
  }

  lemma AbsTriangle(x: real, y: real)
    ensures Abs(x + y) <= Abs(x) + Abs(y)
  {
  }

  // --- merging --------------------------------------------------------------

  /** resourceAggKey */
  datatype Key = Key(text: string)

  function AggKey(code: string, determinant: string): Key {
    Key(code + "\0" + determinant)
  }

  /** Codes read from the database hold no NUL, so a key is one (code, determinant) pair. */
  lemma AggKeyInjective(c1: string, d1: string, c2: string, d2: string)
    requires '\0' !in c1 && '\0' !in c2 && AggKey(c1, d1) == AggKey(c2, d2)
    ensures c1 == c2 && d1 == d2
  {
    IndexOfCharFirst(c1, '\0', d1);
    IndexOfCharFirst(c2, '\0', d2);
    var s := AggKey(c1, d1).text;
    assert s[..|c1|] == c1 && s[..|c2|] == c2 && s[|c1| + 1..] == d1 && s[|c2| + 1..] == d2;
  }

  function KeyOf(c: Contribution): Key {
    AggKey(c.code, c.determinant)
  }

  function PricedKey(p: Priced): Key {
    AggKey(p.code, p.determinant)
  }

  function FirstContribution(p: Priced, quantity: real): Contribution {
    Contribution(p.code, p.determinant, p.perUnit * quantity, p.name, p.unit, RoundMoney(p.price), p.mass)
  }

  function Plus(a: Contribution, amount: real): Contribution {
    a.(consumption := a.consumption + amount)
  }

  /** Where the entry of a key is, or the end. */
  function Find(list: seq<Contribution>, key: Key, from: nat): (p: nat)
    requires from <= |list|
    ensures from <= p <= |list|
    ensures p < |list| ==> KeyOf(list[p]) == key
    ensures forall i :: from <= i < p ==> KeyOf(list[i]) != key
    decreases |list| - from
  {
    if from == |list| || KeyOf(list[from]) == key then from else Find(list, key, from + 1)
  }

  /** Add to the entry of the same key, or append a new entry. */
  function AddTo(list: seq<Contribution>, c: Contribution): seq<Contribution> {
    var p := Find(list, KeyOf(c), 0);
    if p == |list| then list + [c] else list[p := Plus(list[p], c.consumption)]
  }

  /** The merged list after the first n resources; blank codes are left out. */
  function MergedUpTo(ps: seq<Priced>, n: nat, quantity: real): seq<Contribution>
    requires n <= |ps|
  {
    if n == 0 then []
    else
      var before := MergedUpTo(ps, n - 1, quantity);
      if ps[n - 1].code == "" then before else AddTo(before, FirstContribution(ps[n - 1], quantity))
  }

  predicate DistinctKeys(list: seq<Contribution>) {
    forall i, j :: 0 <= i < j < |list| ==> KeyOf(list[i]) != KeyOf(list[j])
  }

  /** Consumption of one key over the first n resources. */
  function Consumed(ps: seq<Priced>, n: nat, quantity: real, key: Key): real
    requires n <= |ps|
  {
    if n == 0 then 0.0
    else Consumed(ps, n - 1, quantity, key)
         + if ps[n - 1].code != "" && PricedKey(ps[n - 1]) == key then ps[n - 1].perUnit * quantity else 0.0
  }

  function Amount(list: seq<Contribution>, key: Key): real {
    var p := Find(list, key, 0);
    if p < |list| then list[p].consumption else 0.0
  }

  lemma AddToAmount(list: seq<Contribution>, c: Contribution, key: Key)
    requires DistinctKeys(list)
    ensures DistinctKeys(AddTo(list, c))
    ensures Amount(AddTo(list, c), key) == Amount(list, key) + if KeyOf(c) == key then c.consumption else 0.0
  {
    var r := AddTo(list, c);
    var p, q, t := Find(list, KeyOf(c), 0), Find(list, key, 0), Find(r, key, 0);
    assert forall i :: 0 <= i < |list| ==> KeyOf(r[i]) == KeyOf(list[i]);
    if p == |list| {
      assert r[|list|] == c;
    }
    if q < |list| {
      assert KeyOf(r[q]) == key;
    }
  }

  /** Merging conserves the consumption of every key. */
  lemma {:induction false} MergeConserves(ps: seq<Priced>, n: nat, quantity: real, key: Key)
    requires n <= |ps|
    ensures DistinctKeys(MergedUpTo(ps, n, quantity))
    ensures Amount(MergedUpTo(ps, n, quantity), key) == Consumed(ps, n, quantity, key)
  {
    if n > 0 {
      MergeConserves(ps, n - 1, quantity, key);
      AddToAmount(MergedUpTo(ps, n - 1, quantity), FirstContribution(ps[n - 1], quantity), key);
    }
  }

  /** Keys of the non-blank resources in order of first appearance. */
  function FirstSeen(ps: seq<Priced>, n: nat): seq<Key>
    requires n <= |ps|
  {
    if n == 0 then []
    else
      var before, key := FirstSeen(ps, n - 1), PricedKey(ps[n - 1]);
      if ps[n - 1].code == "" || key in before then before else before + [key]
  }

  ghost predicate KeysAre(list: seq<Contribution>, keys: seq<Key>) {
    |list| == |keys| && forall i :: 0 <= i < |list| ==> KeyOf(list[i]) == keys[i]
  }

  lemma AddToKeys(list: seq<Contribution>, keys: seq<Key>, c: Contribution)
    requires KeysAre(list, keys)
    ensures KeysAre(AddTo(list, c), if KeyOf(c) in keys then keys else keys + [KeyOf(c)])
  {
  }

  /** The entries stand in first-seen order. */
  lemma {:induction false} MergeKeepsOrder(ps: seq<Priced>, n: nat, quantity: real)
    requires n <= |ps|
    ensures KeysAre(MergedUpTo(ps, n, quantity), FirstSeen(ps, n))
  {
    if n > 0 {
      MergeKeepsOrder(ps, n - 1, quantity);
      AddToKeys(MergedUpTo(ps, n - 1, quantity), FirstSeen(ps, n - 1), FirstContribution(ps[n - 1], quantity));
    }
  }

  // --- price of the merged list ---------------------------------------------

  /** Sum over the first n entries of consumption times a price given per key. */
  function ListTotal(list: seq<Contribution>, n: nat, price: Key -> real): real
    requires n <= |list|
  {
    if n == 0 then 0.0
    else ListTotal(list, n - 1, price) + Cost(price(KeyOf(list[n - 1])), list[n - 1].consumption)
  }

  lemma {:induction false} PlusTotal(list: seq<Contribution>, p: nat, amount: real, n: nat, price: Key -> real)
    requires p < |list| && n <= |list|
    ensures ListTotal(list[p := Plus(list[p], amount)], n, price)
            == ListTotal(list, n, price) + if p < n then Cost(price(KeyOf(list[p])), amount) else 0.0
  {
    if n > 0 {
      PlusTotal(list, p, amount, n - 1, price);
      if p == n - 1 {
        var a, x := list[p].consumption, price(KeyOf(list[p]));
        assert Cost(x, a + amount) == Cost(x, a) + Cost(x, amount);
      }
    }
  }

  lemma {:induction false} PrefixTotal(a: seq<Contribution>, b: seq<Contribution>, n: nat, price: Key -> real)
    requires a <= b && n <= |a|
    ensures ListTotal(a, n, price) == ListTotal(b, n, price)
  {
    if n > 0 { PrefixTotal(a, b, n - 1, price); }
  }

  lemma AddToTotal(list: seq<Contribution>, c: Contribution, price: Key -> real)
    ensures var r := AddTo(list, c);
      ListTotal(r, |r|, price) == ListTotal(list, |list|, price) + Cost(price(KeyOf(c)), c.consumption)
  {
    var p := Find(list, KeyOf(c), 0);
    if p < |list| {
      PlusTotal(list, p, c.consumption, |list|, price);
    } else {
      PrefixTotal(list, list + [c], |list|, price);
    }
  }

  /** Non-blank codes, and all resources of one key have that key's price. */
  predicate OnePricePerKey(ps: seq<Priced>, price: Key -> real) {
    forall i :: 0 <= i < |ps| ==> ps[i].code != "" && ps[i].price == price(PricedKey(ps[i]))
  }

  /** Merged consumption times unrounded price is the unrounded total. */
  lemma {:induction false} MergedTotalIsTotal(ps: seq<Priced>, n: nat, quantity: real, price: Key -> real)
    requires n <= |ps| && OnePricePerKey(ps, price)
    ensures var list := MergedUpTo(ps, n, quantity);
      ListTotal(list, |list|, price) == UnroundedTotal(ps[..n], quantity)
  {
    hide RoundMoney;
    hide AddTo;
    if n > 0 {
      var x := ps[n - 1];
      MergedTotalIsTotal(ps, n - 1, quantity, price);
      AddToTotal(MergedUpTo(ps, n - 1, quantity), FirstContribution(x, quantity), price);
      assert ps[..n] == ps[..n - 1] + [x];
      UnroundedTotalSnoc(ps[..n - 1], x, quantity);
    }
  }

  function AbsConsumption(list: seq<Contribution>, n: nat): real
    requires n <= |list|
  {
    if n == 0 then 0.0 else AbsConsumption(list, n - 1) + Abs(list[n - 1].consumption)
  }

  /** The total a reader of the stored, rounded prices computes. */
  function EstimateTotal(list: seq<Contribution>, n: nat): real
    requires n <= |list|
  {
    if n == 0 then 0.0 else EstimateTotal(list, n - 1) + Cost(list[n - 1].estimatePrice, list[n - 1].consumption)
  }

  predicate PricesRounded(list: seq<Contribution>, price: Key -> real) {
    forall i :: 0 <= i < |list| ==> list[i].estimatePrice == RoundMoney(price(KeyOf(list[i])))
  }

  lemma {:induction false} MergedPricesRounded(ps: seq<Priced>, n: nat, quantity: real, price: Key -> real)
    requires n <= |ps| && OnePricePerKey(ps, price)
    ensures PricesRounded(MergedUpTo(ps, n, quantity), price)
  {
    if n > 0 {
      MergedPricesRounded(ps, n - 1, quantity, price);
    }
  }

  lemma RoundedTerm(consumption: real, p: real)
    ensures Abs(Cost(RoundMoney(p), consumption) - Cost(p, consumption)) <= 0.005 * Abs(consumption)
  {
    hide RoundMoney;
    RoundMoneyIsNear(p);
    var d := RoundMoney(p) - p;
    assert Cost(RoundMoney(p), consumption) - Cost(p, consumption) == Cost(d, consumption);
    if consumption >= 0.0 {
      ScaledBound(d, consumption);
    } else {
      ScaledBound(d, -consumption);
      assert Cost(d, -consumption) == -Cost(d, consumption);
    }
  }

  lemma {:induction false} RoundedPricesError(list: seq<Contribution>, n: nat, price: Key -> real)
    requires PricesRounded(list, price) && n <= |list|
    ensures Abs(EstimateTotal(list, n) - ListTotal(list, n, price)) <= 0.005 * AbsConsumption(list, n)
  {
    hide RoundMoney;
    if n > 0 {
      RoundedPricesError(list, n - 1, price);
      var c := list[n - 1];
      RoundedTerm(c.consumption, price(KeyOf(c)));
      var e, l := EstimateTotal(list, n - 1), ListTotal(list, n - 1, price);
      AbsTriangle(e - l, Cost(c.estimatePrice, c.consumption) - Cost(price(KeyOf(c)), c.consumption));
    }
  }

  /** The stored unit prices are rounded: the error is at most half a cent per unit of absolute consumption. */
  lemma StoredPricesError(ps: seq<Priced>, quantity: real, price: Key -> real)
    requires OnePricePerKey(ps, price)
    ensures var list := MergedUpTo(ps, |ps|, quantity);
      Abs(EstimateTotal(list, |list|) - UnroundedTotal(ps, quantity)) <= 0.005 * AbsConsumption(list, |list|)
  {
    var list := MergedUpTo(ps, |ps|, quantity);
    MergedTotalIsTotal(ps, |ps|, quantity, price);
    MergedPricesRounded(ps, |ps|, quantity, price);
    RoundedPricesError(list, |list|, price);
    assert ps[..|ps|] == ps;
  }

  // --- the snapshot ---------------------------------------------------------

  lemma {:induction false} MergedPrefix(ps: seq<Priced>, more: seq<Priced>, n: nat, quantity: real)
    requires n <= |ps|
    ensures MergedUpTo(ps + more, n, quantity) == MergedUpTo(ps, n, quantity)
  {
    hide RoundMoney;
    hide AddTo;
    if n > 0 {
      MergedPrefix(ps, more, n - 1, quantity);
    }
  }

  /** The map of merged entries and the order of its keys hold exactly this list. */
  ghost predicate Represents(order: seq<Key>, merged: map<Key, Contribution>, list: seq<Contribution>) {
    && |order| == |list|
    && (forall i :: 0 <= i < |order| ==> KeyOf(list[i]) == order[i])
    && (forall i :: 0 <= i < |order| ==> order[i] in merged && merged[order[i]] == list[i])
    && (forall k :: k in merged ==> k in order)
    && DistinctKeys(list)
  }

  /** One resource added to the map, and to the order when its key is new. */
  lemma MapAddsTo(order: seq<Key>, merged: map<Key, Contribution>, list: seq<Contribution>, c: Contribution)
    requires Represents(order, merged, list)
    ensures var k := KeyOf(c);
      if k in merged then Represents(order, merged[k := Plus(merged[k], c.consumption)], AddTo(list, c))
      else Represents(order + [k], merged[k := c], AddTo(list, c))
  {
    var k, p := KeyOf(c), Find(list, KeyOf(c), 0);
    if k in merged {
      var i :| 0 <= i < |order| && order[i] == k;
      assert p == i;
    } else {
      assert p == |list|;
    }
  }

  function MergedWith(list: seq<Contribution>, p: Priced, quantity: real): seq<Contribution> {
    if p.code == "" then list else AddTo(list, FirstContribution(p, quantity))
  }

  lemma MergedSnoc(ps: seq<Priced>, p: Priced, quantity: real)
    ensures MergedUpTo(ps + [p], |ps| + 1, quantity) == MergedWith(MergedUpTo(ps, |ps|, quantity), p, quantity)
  {
    hide RoundMoney;
    hide AddTo;
    MergedPrefix(ps, [p], |ps|, quantity);
    assert (ps + [p])[|ps|] == p;
  }

  lemma FirstIs(p: Priced, quantity: real, entry: Contribution)
    requires entry == Contribution(p.code, p.determinant, p.perUnit * quantity, p.name, p.unit, RoundMoney(p.price), p.mass)
    ensures entry == FirstContribution(p, quantity) && KeyOf(entry) == AggKey(p.code, p.determinant)
    ensures p.code != "" ==> forall list :: MergedWith(list, p, quantity) == AddTo(list, entry)
  {
    hide RoundMoney;
    hide AddTo;
  }

  /** One pass of the loop body: blank codes are skipped, a known key grows, a new key is put last. */
  method MergeOne(order: seq<Key>, merged: map<Key, Contribution>, p: Priced, quantity: real,
                  ghost list: seq<Contribution>)
    returns (order': seq<Key>, merged': map<Key, Contribution>)
    requires Represents(order, merged, list)
    ensures Represents(order', merged', MergedWith(list, p, quantity))
  {
    hide RoundMoney;
    hide AddTo;
    hide Represents;
    order', merged' := order, merged;
    if p.code == "" {
      return;
    }
    hide Plus;
    hide KeyOf;
    hide AggKey;
    var key := AggKey(p.code, p.determinant);
    var consumption := p.perUnit * quantity;
    var entry := Contribution(p.code, p.determinant, consumption, p.name, p.unit, RoundMoney(p.price), p.mass);
    FirstIs(p, quantity, entry);
    MapAddsTo(order, merged, list, entry);
    if key in merged {
      merged' := merged[key := Plus(merged[key], consumption)];
      return;
    }
    merged' := merged[key := entry];
    order' := order + [key];
  }

  method EntriesInOrder(order: seq<Key>, merged: map<Key, Contribution>, ghost list: seq<Contribution>)
    returns (entries: seq<Contribution>)
    requires Represents(order, merged, list)
    ensures entries == list
  {
    entries := [];
    for i := 0 to |order|
      invariant entries == list[..i]
    {
      entries := entries + [merged[order[i]]];
    }
  }

  /** The loop over a map of entries and the order their keys were first seen in. */
  method MergeResources(rs: seq<Resource>, quantity: real) returns (r: Result<seq<Contribution>>)
    ensures r.Ok? <==> AllParse(rs)
    ensures r.Ok? ==> r.value == MergedUpTo(ReadAll(rs), |rs|, quantity)
  {
    hide ReadResource;
    hide MergedWith;
    hide Represents;
    var merged: map<Key, Contribution> := map[];
    var order: seq<Key> := [];
    NothingMerged();
    for i := 0 to |rs|
      invariant AllParse(rs[..i])
      invariant Represents(order, merged, MergedUpTo(ReadAll(rs[..i]), i, quantity))
    {
      var p := ReadResource(rs[i]);
      if p.None? {
        return Err(BadResource(rs[i].code));
      }
      ReadAllSnoc(rs, i);
      MergedSnoc(ReadAll(rs[..i]), p.value, quantity);
      order, merged := MergeOne(order, merged, p.value, quantity, MergedUpTo(ReadAll(rs[..i]), i, quantity));
    }
    assert rs[..|rs|] == rs;
    var list := EntriesInOrder(order, merged, MergedUpTo(ReadAll(rs), |rs|, quantity));
    return Ok(list);
  }

  lemma NothingMerged()
    ensures Represents([], map[], [])
  {
  }

  /** A resource position is its own only resource, for the whole quantity at its rounded price. */
  function OwnContribution(record: Record, quantity: real): Contribution
    requires ResourceUnitPrice(record.unitPriceText, record.unitPriceIndex).Some?
  {
    var price := ResourceUnitPrice(record.unitPriceText, record.unitPriceIndex).value;
    Contribution(Trim(record.code), Trim(record.determinant), quantity, Trim(record.name), Trim(record.unit),
                 RoundMoney(price), Trim(record.mass))
  }

  method BuildLineCalcSnapshot(record: Record, quantity: real) returns (r: Result<Snapshot>)
    ensures r.Ok? <==> CanPrice(record, quantity)
    ensures r.Ok? && record.isWork ==> (
      var ps := ReadAll(record.resources);
      && Pricing(r.value.quantity, r.value.unitPrice, r.value.total) == WorkPricing(UnroundedTotal(ps, quantity), quantity)
      && r.value.resources == MergedUpTo(ps, |ps|, quantity))
    ensures r.Ok? && !record.isWork ==> (
      var price := ResourceUnitPrice(record.unitPriceText, record.unitPriceIndex).value;
      && Pricing(r.value.quantity, r.value.unitPrice, r.value.total) == OwnPricing(price, quantity)
      && r.value.resources == [OwnContribution(record, quantity)])
    ensures r.Ok? ==>
      && r.value.code == Trim(record.code)
      && r.value.originalCode == (if Blank(record.originalCode) then Trim(record.code) else Trim(record.originalCode))
      && r.value.name == Trim(record.name)
      && r.value.unit == Trim(record.unit)
      && r.value.determinant == Trim(record.determinant)
  {
    hide ResourceUnitPrice;
    hide ReadResource;
    hide RoundMoney;
    hide AddTo;
    hide Trim;
    var pricing := LinePricingFromRecord(record, quantity);
    if pricing.Err? {
      return Err(pricing.error);
    }
    var p := pricing.value;
    var snap := Snapshot(Trim(record.code), Trim(record.originalCode), Trim(record.name), Trim(record.unit),
                         Trim(record.determinant), p.quantity, p.unitPrice, p.total, []);
    BlankIffTrimsToEmpty(record.originalCode);
    if snap.originalCode == "" {
      snap := snap.(originalCode := snap.code);
    }
    if !record.isWork {
      var own := ResourceUnitPrice(record.unitPriceText, record.unitPriceIndex);
      var price := RoundMoney(own.value);
      snap := snap.(resources := [Contribution(snap.code, Trim(record.determinant), quantity, snap.name, snap.unit,
                                               price, Trim(record.mass))]);
      return Ok(snap);
    }
    var resources := MergeResources(record.resources, quantity);
    return Ok(snap.(resources := resources.value));
  }
}

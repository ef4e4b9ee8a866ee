/**
  Norm lists of the hierarchy file: expand_norm_list in prep_gsn_books.py and
  expand_record_refs in scripts/import_gsn_to_postgres.py.
 */
module NormRefs {
  import opened Numbers
  import opened Text

  /** ^[ЕЦУE]\d{4,5}-\d{3}-\d{2}$ */
  predicate IsNormCode(s: string) {
    && (|s| == 12 || |s| == 13) && s[0] in "ЕЦУE"
    && s[|s| - 3] == '-' && s[|s| - 7] == '-'
    && AllDigits(s[1..|s| - 7]) && AllDigits(s[|s| - 6..|s| - 3]) && AllDigits(s[|s| - 2..])
  }

  function StripSemicolonsLeft(s: string): string {
    if s != [] && s[0] == ';' then StripSemicolonsLeft(s[1..]) else s
  }

  function StripSemicolonsRight(s: string): string {
    if s != [] && s[|s| - 1] == ';' then StripSemicolonsRight(s[..|s| - 1]) else s
  }

  function CleanRef(s: string): string {
    StripSemicolonsRight(StripSemicolonsLeft(Trim(s)))
  }

  function DigitChar(d: nat): (c: char)
    requires d < 10
    ensures IsDigit(c) && DigitValue(c) == d
  {
    ('0' as nat + d) as char
  }

  function NormPrefix(code: string): string
    requires IsNormCode(code)
  {
    code[..|code| - 3]
  }

  function NormNumber(code: string): (n: nat)
    requires IsNormCode(code)
    ensures n < 100
  {
    var d := code[|code| - 2..];
    DigitValue(d[0]) * 10 + DigitValue(d[1])
  }

  /** prefix + "-" + number written with two digits */
  function NormCode(prefix: string, n: nat): string
    requires n < 100
  {
    prefix + "-" + [DigitChar(n / 10), DigitChar(n % 10)]
  }

  function CodesBetween(prefix: string, start: nat, end: nat): (r: seq<string>)
    requires start <= end < 100
    ensures |r| == end - start + 1
    ensures forall i :: 0 <= i < |r| ==> r[i] == NormCode(prefix, start + i)
  {
    seq(end - start + 1, i requires 0 <= i <= end - start => NormCode(prefix, start + i))
  }

  /** expand_norm_range; two-digit numbers are never more than 500 apart. */
  function ExpandNormRange(left: string, right: string): seq<string> {
    var l, r := Trim(left), Trim(right);
    if !IsNormCode(l) || !IsNormCode(r) then [l, r]
    else if NormPrefix(l) != NormPrefix(r) then [l, r]
    else if NormNumber(r) < NormNumber(l) || NormNumber(r) - NormNumber(l) > 500 then [l, r]
    else CodesBetween(NormPrefix(l), NormNumber(l), NormNumber(r))
  }

  function CleanParts(fields: seq<string>): seq<string> {
    if fields == [] then []
    else (if CleanRef(fields[0]) != "" then [CleanRef(fields[0])] else []) + CleanParts(fields[1..])
  }

  function ExpandNormList(normList: string): seq<string> {
    if normList == "" then []
    else
      var parts := CleanParts(Split(normList, '/'));
      if |parts| == 2 && IsNormCode(parts[0]) && IsNormCode(parts[1]) then ExpandNormRange(parts[0], parts[1])
      else parts
  }

  /** A code is its prefix and number, so the two-digit form names every code exactly once. */
  lemma NormCodeRoundTrip(code: string)
    requires IsNormCode(code)
    ensures NormCode(NormPrefix(code), NormNumber(code)) == code
  {
  }

  lemma NormCodeParts(code: string, n: nat)
    requires IsNormCode(code) && n < 100
    ensures var x := NormCode(NormPrefix(code), n);
      IsNormCode(x) && NormPrefix(x) == NormPrefix(code) && NormNumber(x) == n
  {
    var p := NormPrefix(code);
    var x := NormCode(p, n);
    assert x[..|x| - 3] == p && |x| == |code|;
    assert x[1..|x| - 7] == code[1..|code| - 7] && x[|x| - 6..|x| - 3] == code[|code| - 6..|code| - 3];
    assert x[|x| - 2..] == [DigitChar(n / 10), DigitChar(n % 10)];
  }

  /** A range of codes holds a code exactly when it has that prefix and a number in between; in order, each once. */
  lemma RangeIsExact(left: string, right: string, code: string)
    requires IsNormCode(left) && IsNormCode(right) && IsNormCode(code)
    requires NormPrefix(left) == NormPrefix(right) && NormNumber(left) <= NormNumber(right)
    ensures var range := ExpandNormRange(left, right);
      && (code in range
          <==> NormPrefix(code) == NormPrefix(left) && NormNumber(left) <= NormNumber(code) <= NormNumber(right))
      && (forall i :: 0 <= i < |range| ==> IsNormCode(range[i]) && NormNumber(range[i]) == NormNumber(left) + i)
  {
    var start, end := NormNumber(left), NormNumber(right);
    var range := CodesBetween(NormPrefix(left), start, end);
    RangeIs(left, right);
    hide ExpandNormRange;
    hide NormNumber;
    hide IsNormCode;
    hide NormPrefix;
    CodesBetweenExact(left, start, end, code);
    forall i | 0 <= i < |range| ensures IsNormCode(range[i]) && NormNumber(range[i]) == start + i {
      NormCodeParts(left, start + i);
    }
  }

  lemma RangeIs(left: string, right: string)
    requires IsNormCode(left) && IsNormCode(right)
    requires NormPrefix(left) == NormPrefix(right) && NormNumber(left) <= NormNumber(right)
    ensures NormNumber(right) < 100
    ensures ExpandNormRange(left, right) == CodesBetween(NormPrefix(left), NormNumber(left), NormNumber(right))
  {
  }

  lemma CodesBetweenExact(left: string, start: nat, end: nat, code: string)
    requires IsNormCode(left) && IsNormCode(code) && start <= end < 100
    ensures code in CodesBetween(NormPrefix(left), start, end)
            <==> NormPrefix(code) == NormPrefix(left) && start <= NormNumber(code) <= end
  {
    var r := CodesBetween(NormPrefix(left), start, end);
    if code in r {
      var i :| 0 <= i < |r| && r[i] == code;
      NormCodeParts(left, start + i);
    }
    if NormPrefix(code) == NormPrefix(left) && start <= NormNumber(code) <= end {
      NormCodeRoundTrip(code);
      assert r[NormNumber(code) - start] == code;
    }
  }

  // --- the importer's reading of the same field -----------------------------

  /** expand_range cleans its arguments again. */
  function ExpandRange(left: string, right: string): seq<string> {
    var l, r := CleanRef(left), CleanRef(right);
    if !IsNormCode(l) || !IsNormCode(r) then [l, r]
    else if NormPrefix(l) != NormPrefix(r) then [l, r]
    else if NormNumber(r) < NormNumber(l) || NormNumber(r) - NormNumber(l) > 500 then [l, r]
    else CodesBetween(NormPrefix(l), NormNumber(l), NormNumber(r))
  }

  function ExpandGroup(group: string): seq<string> {
    if group == "" then []
    else
      var parts := CleanParts(Split(group, '/'));
      if |parts| == 2 && IsNormCode(parts[0]) && IsNormCode(parts[1]) then ExpandRange(parts[0], parts[1])
      else parts
  }

  function ExpandGroups(groups: seq<string>): seq<string> {
    if groups == [] then [] else ExpandGroup(groups[0]) + ExpandGroups(groups[1..])
  }

  /** expand_record_refs: the recursion on ";" is one level deep, as groups hold no ";". */
  function ExpandRecordRefs(raw: string): seq<string> {
    if raw == "" then [] else if ';' in raw then ExpandGroups(Split(raw, ';')) else ExpandGroup(raw)
  }

  lemma NormCodeIsClean(code: string)
    requires IsNormCode(code)
    ensures Trim(code) == code && CleanRef(code) == code
  {
  }

  /** Both programs read a norm list without semicolons alike. */
  lemma ProgramsAgreeWithoutSemicolons(raw: string)
    requires ';' !in raw
    ensures ExpandRecordRefs(raw) == ExpandNormList(raw)
  {
    if raw != "" {
      var parts := CleanParts(Split(raw, '/'));
      if |parts| == 2 && IsNormCode(parts[0]) && IsNormCode(parts[1]) {
        NormCodeIsClean(parts[0]);
        NormCodeIsClean(parts[1]);
      }
    }
  }

  // --- norm lists part by part ---------------------------------------------------

  /** A letter, four or five digits, three digits and two digits, with hyphens between them. */
  predicate IsWritten(s: string, letter: char, table: string, group: string, number: string) {
    && s == [letter] + table + "-" + group + "-" + number
    && (letter == 'Е' || letter == 'Ц' || letter == 'У' || letter == 'E')
    && 4 <= |table| <= 5 && |group| == 3 && |number| == 2
    && AllDigits(table) && AllDigits(group) && AllDigits(number)
  }

  lemma WrittenIsCode(s: string, letter: char, table: string, group: string, number: string)
    requires IsWritten(s, letter, table, group, number)
    ensures IsNormCode(s) && NormPrefix(s) == [letter] + table + "-" + group && NormNumber(s) == DigitsValue(number)
  {
    hide AllDigits;
    assert s[1..|s| - 7] == table && s[|s| - 6..|s| - 3] == group && s[|s| - 2..] == number;
    TwoDigits(number);
  }

  lemma TwoDigits(number: string)
    requires |number| == 2 && AllDigits(number)
    ensures DigitsValue(number) == DigitValue(number[0]) * 10 + DigitValue(number[1])
  {
    assert number[..1][..0] == "";
    assert DigitsValue(number[..1]) == DigitValue(number[0]);
  }

  /** Exactly the texts of this shape are norm codes. */
  lemma NormCodeIffWritten(s: string)
    ensures IsNormCode(s) <==> exists letter, table, group, number :: IsWritten(s, letter, table, group, number)
  {
    if IsNormCode(s) {
      var table, group, number := s[1..|s| - 7], s[|s| - 6..|s| - 3], s[|s| - 2..];
      assert s == [s[0]] + table + "-" + group + "-" + number;
      assert IsWritten(s, s[0], table, group, number);
    }
    if letter, table, group, number :| IsWritten(s, letter, table, group, number) {
      WrittenIsCode(s, letter, table, group, number);
    }
  }

  /** A part of a list with nothing to clean away. */
  predicate IsClean(part: string) {
    part != "" && Trimmed(part) && part[0] != ';' && part[|part| - 1] != ';' && '/' !in part
  }

  lemma CleanIs(part: string)
    requires IsClean(part)
    ensures CleanRef(part) == part
  {
    hide Trim;
    TrimIsTrimmed(part);
  }

  /** Semicolons and white space around a part are cleaned away. */
  lemma CleanDrops(part: string)
    requires IsClean(part)
    ensures CleanRef(" ;" + part + "; ") == part
  {
    var s := ";" + part + ";";
    assert " ;" + part + "; " == " " + s + " ";
    TrimAround(" ", s, " ");
    OneSpace();
    assert "" + s + "" == s;
    SemicolonsDrop(part);
  }

  lemma OneSpace()
    ensures TrimLeft(" ") == "" && TrimRight(" ") == ""
  {
  }

  lemma SemicolonsDrop(part: string)
    requires IsClean(part)
    ensures StripSemicolonsRight(StripSemicolonsLeft(";" + part + ";")) == part
  {
    var s := ";" + part + ";";
    var t := part + ";";
    assert s[1..] == t && t[0] == part[0] && t[..|part|] == part;
    assert StripSemicolonsLeft(s) == StripSemicolonsLeft(t) == t;
  }

  lemma {:induction false} CleanAll(parts: seq<string>)
    requires forall p :: p in parts ==> IsClean(p)
    ensures CleanParts(parts) == parts
  {
    hide CleanRef;
    hide IsClean;
    if parts != [] {
      assert parts[0] in parts;
      CleanIs(parts[0]);
      CleanNotEmpty(parts[0]);
      CleanAll(parts[1..]);
    }
  }

  lemma CleanNotEmpty(part: string)
    requires IsClean(part)
    ensures part != "" && '/' !in part
  {
  }

  lemma JoinCleanNotEmpty(parts: seq<string>)
    requires parts != [] && parts[0] != ""
    ensures Join(parts, '/') != ""
  {
  }

  /**
    A list of clean parts joined by '/' is those parts, or, if they are two codes of one prefix in
    ascending order, exactly the codes between them.
   */
  lemma NormListIs(parts: seq<string>, code: string)
    requires parts != [] && forall p :: p in parts ==> IsClean(p)
    ensures var list := ExpandNormList(Join(parts, '/'));
      if |parts| == 2 && IsNormCode(parts[0]) && IsNormCode(parts[1]) && NormPrefix(parts[0]) == NormPrefix(parts[1])
         && NormNumber(parts[0]) <= NormNumber(parts[1])
      then IsNormCode(code) ==>
        (code in list <==> NormPrefix(code) == NormPrefix(parts[0])
                           && NormNumber(parts[0]) <= NormNumber(code) <= NormNumber(parts[1]))
      else list == parts
  {
    hide Join;
    hide Split;
    hide IsNormCode;
    hide NormPrefix;
    hide NormNumber;
    hide IsClean;
    hide CleanParts;
    forall p | p in parts ensures '/' !in p { CleanNotEmpty(p); }
    assert parts[0] in parts;
    CleanNotEmpty(parts[0]);
    JoinCleanNotEmpty(parts);
    SplitJoin(parts, '/');
    CleanAll(parts);
    if |parts| == 2 && IsNormCode(parts[0]) && IsNormCode(parts[1]) {
      TwoCodes(parts[0], parts[1]);
      assert parts == [parts[0], parts[1]];
      if NormPrefix(parts[0]) == NormPrefix(parts[1]) && NormNumber(parts[0]) <= NormNumber(parts[1]) && IsNormCode(code) {
        RangeIsExact(parts[0], parts[1], code);
      }
    }
  }

  lemma TwoCodes(left: string, right: string)
    requires IsNormCode(left) && IsNormCode(right)
    ensures NormPrefix(left) != NormPrefix(right) || NormNumber(left) > NormNumber(right) ==>
      ExpandNormRange(left, right) == [left, right]
  {
    hide Trim;
    NormCodeIsClean(left);
    NormCodeIsClean(right);
  }

  /** The lists of the groups one after the other. */
  function Lists(groups: seq<string>): seq<string> {
    if groups == [] then [] else ExpandNormList(groups[0]) + Lists(groups[1..])
  }

  lemma {:induction false} GroupsAreLists(groups: seq<string>)
    requires forall g :: g in groups ==> ';' !in g
    ensures ExpandGroups(groups) == Lists(groups)
  {
    hide ExpandGroup;
    hide ExpandNormList;
    if groups != [] {
      assert groups[0] in groups;
      GroupIsList(groups[0]);
      GroupsAreLists(groups[1..]);
    }
  }

  lemma GroupIsList(group: string)
    requires ';' !in group
    ensures ExpandGroup(group) == ExpandNormList(group)
  {
    hide ExpandNormList;
    hide ExpandGroup;
    ProgramsAgreeWithoutSemicolons(group);
    GroupAlone(group);
  }

  lemma GroupAlone(group: string)
    requires ';' !in group
    ensures ExpandRecordRefs(group) == ExpandGroup(group)
  {
  }

  /** With semicolons the importer reads the norm lists between them, one after the other. */
  lemma ImporterReadsGroups(groups: seq<string>)
    requires |groups| >= 2 && forall g :: g in groups ==> ';' !in g
    ensures ExpandRecordRefs(Join(groups, ';')) == Lists(groups)
  {
    hide Split;
    hide ExpandGroups;
    SplitJoin(groups, ';');
    JoinStep(groups, ';');
    var raw := Join(groups, ';');
    assert raw[|groups[0]|] == ';';
    GroupsAreLists(groups);
  }
}

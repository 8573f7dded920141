/** The fleet: an ordered list of boats, with CSV import, case-insensitive
    lookup, removal, expense forwarding and the report (src/Fleet.java).
    The first half states each operation as a function on the list of boat
    values; the class Fleet at the end performs them on Boat objects and is
    proved to agree. */
module Fleets {
  import opened Text
  import opened Boats

  // ---------------------------------------------------------------------------
  // Parsing one CSV record (addBoatFromCSV)

  /** BoatType.valueOf(field.toUpperCase()). */
  function ParseType(field: string): Option<BoatType>
  {
    TypeValueOf(Upper(field))
  }

  /** The type field is read ignoring letter case: it names a constant
      exactly when it equals that constant's name up to case. */
  lemma ParseTypeIgnoresCase(field: string, t: BoatType)
    ensures ParseType(field) == Some(t) <==> EqualsIgnoreCase(field, TypeName(t))
  {
    UpperOfTypeName(t);
    TypeValueOfIsExact(Upper(field), t);
  }

  lemma UpperOfTypeName(t: BoatType)
    ensures Upper(TypeName(t)) == TypeName(t)
  {
    var s := TypeName(t);
    UpperAt(s);
    assert forall i :: 0 <= i < |s| ==> 'A' <= s[i] <= 'Z';
  }

  /** The boat described by TYPE,NAME,YEAR,MAKEMODEL,LENGTH,PRICE, or None when
      the line has fewer than six fields after String.split(",") or a field
      does not parse. Fields after the sixth are ignored; the name and the
      make/model are taken verbatim. */
  function ParseRecord(line: string): (r: Option<BoatRec>)
    ensures |Split(line, ',')| < 6 ==> r == None
    ensures r.Some? ==> r.value.expenses == 0.0
                        && r.value.name == Split(line, ',')[1]
                        && r.value.makeModel == Split(line, ',')[3]
  {
    var parts := Split(line, ',');
    if |parts| < 6 then None
    else
      match (ParseType(parts[0]), ParseInt(parts[2]), ParseDecimal(parts[4]), ParseDecimal(parts[5]))
      case (Some(kind), Some(year), Some(length), Some(price)) =>
        Some(NewBoat(kind, parts[1], year, parts[3], length, price))
      case _ => None
  }

  /** A record written field by field: the type in any letter case, the
      numbers as plain numerals, then any further comma-free fields. */
  function CsvLine(typeText: string, name: string, year: int, makeModel: string,
                   length: Numeral, price: Numeral, extra: seq<string>): string
  {
    Join([typeText, name, IntToString(year), makeModel, NumeralText(length), NumeralText(price)] + extra, ',')
  }

  /** Parsing a well-formed record gives back its fields, whatever the case of
      the type name and whatever comes after the sixth field. */
  lemma ParseCsvLine(t: BoatType, typeText: string, name: string, year: int, makeModel: string,
                     length: Numeral, price: Numeral, extra: seq<string>)
    requires EqualsIgnoreCase(typeText, TypeName(t))
    requires ',' !in name && ',' !in makeModel && MinInt32 <= year <= MaxInt32
    requires AllDigits(length.fraction) && AllDigits(price.fraction)
    requires forall i :: 0 <= i < |extra| ==> ',' !in extra[i] && extra[i] != ""
    ensures ParseRecord(CsvLine(typeText, name, year, makeModel, length, price, extra))
            == Some(NewBoat(t, name, year, makeModel, NumeralValue(length), NumeralValue(price)))
  {
    var parts := [typeText, name, IntToString(year), makeModel, NumeralText(length), NumeralText(price)] + extra;
    CsvLineSplits(t, typeText, name, year, makeModel, length, price, extra);
    ParseFields(t, parts, year, length, price);
  }

  /** A well-formed record splits back into the fields it was written from. */
  lemma CsvLineSplits(t: BoatType, typeText: string, name: string, year: int, makeModel: string,
                      length: Numeral, price: Numeral, extra: seq<string>)
    requires EqualsIgnoreCase(typeText, TypeName(t))
    requires ',' !in name && ',' !in makeModel
    requires AllDigits(length.fraction) && AllDigits(price.fraction)
    requires forall i :: 0 <= i < |extra| ==> ',' !in extra[i] && extra[i] != ""
    ensures Split(CsvLine(typeText, name, year, makeModel, length, price, extra), ',')
            == [typeText, name, IntToString(year), makeModel, NumeralText(length), NumeralText(price)] + extra
  {
    var parts := [typeText, name, IntToString(year), makeModel, NumeralText(length), NumeralText(price)] + extra;
    CsvFieldsHaveNoComma(t, typeText, year);
    NumeralTextLacks(length, ',');
    NumeralTextLacks(price, ',');
    assert forall i :: 0 <= i < |parts| ==> ',' !in parts[i] by {
      forall i | 0 <= i < |parts| ensures ',' !in parts[i] {
        if i >= 6 { assert parts[i] == extra[i - 6]; }
      }
    }
    assert parts[|parts| - 1] != "" by {
      if extra == [] { assert parts[|parts| - 1] == NumeralText(price); }
    }
    SplitJoin(parts, ',');
  }

  /** The type and year fields a record writer produces hold no comma. */
  lemma CsvFieldsHaveNoComma(t: BoatType, typeText: string, year: int)
    requires EqualsIgnoreCase(typeText, TypeName(t))
    ensures ',' !in typeText && ',' !in IntToString(year)
  {
    EqualsIgnoreCaseCharwise(typeText, TypeName(t));
    assert forall i :: 0 <= i < |typeText| ==> UpperChar(typeText[i]) != ',';
    var digits := NatToString(if year < 0 then -year else year);
    assert forall i :: 0 <= i < |digits| ==> IsDigit(digits[i]);
  }

  /** Six or more fields whose numbers are written as numerals parse to the
      boat they describe. */
  lemma ParseFields(t: BoatType, parts: seq<string>, year: int, length: Numeral, price: Numeral)
    requires |parts| >= 6 && EqualsIgnoreCase(parts[0], TypeName(t))
    requires MinInt32 <= year <= MaxInt32 && parts[2] == IntToString(year)
    requires AllDigits(length.fraction) && AllDigits(price.fraction)
    requires parts[4] == NumeralText(length) && parts[5] == NumeralText(price)
    ensures forall line :: Split(line, ',') == parts ==>
              ParseRecord(line) == Some(NewBoat(t, parts[1], year, parts[3], NumeralValue(length), NumeralValue(price)))
  {
    ParseTypeIgnoresCase(parts[0], t);
    ParseIntOfIntToString(year);
    ParseDecimalOfNumeral(length);
    ParseDecimalOfNumeral(price);
  }

  /** Adding a comma at the end of a line never adds a field: a sixth field
      left empty is lost, and the record is refused. */
  lemma TrailingCommaAddsNoField(line: string)
    requires line != ""
    ensures ParseRecord(line + ",") == ParseRecord(line)
  {
    TrailingSeparatorAddsNoField(line, ',');
  }

  // ---------------------------------------------------------------------------
  // Lookup (findBoatByName, boatExists)

  /** boat.getName().equalsIgnoreCase(name) */
  predicate Matches(b: BoatRec, name: string)
  {
    EqualsIgnoreCase(b.name, name)
  }

  predicate Exists(bs: seq<BoatRec>, name: string)
  {
    exists i :: 0 <= i < |bs| && Matches(bs[i], name)
  }

  /** The position of the earliest boat whose name matches ignoring case. */
  function FindFirst(bs: seq<BoatRec>, name: string): (r: Option<nat>)
    ensures r.Some? ==> r.value < |bs|
  {
    if bs == [] then None
    else if Matches(bs[0], name) then Some(0)
    else
      match FindFirst(bs[1..], name)
      case None => None
      case Some(k) => Some(k + 1)
  }

  /** FindFirst finds a matching boat with no match before it, and finds
      nothing only when no boat matches. */
  lemma {:induction false} FindFirstIsEarliest(bs: seq<BoatRec>, name: string)
    ensures var r := FindFirst(bs, name);
            (r.Some? ==> Matches(bs[r.value], name)
                         && forall j :: 0 <= j < r.value ==> !Matches(bs[j], name))
            && (r.None? ==> forall j :: 0 <= j < |bs| ==> !Matches(bs[j], name))
  {
    if bs != [] && !Matches(bs[0], name) {
      FindFirstIsEarliest(bs[1..], name);
      assert forall j :: 1 <= j < |bs| ==> bs[j] == bs[1..][j - 1];
    }
  }

  /** A scan that first meets a match at i, or meets none (i == |bs|), has
      found what FindFirst finds. */
  lemma FirstMatchAt(bs: seq<BoatRec>, name: string, i: nat)
    requires i <= |bs| && forall j :: 0 <= j < i ==> !Matches(bs[j], name)
    requires i < |bs| ==> Matches(bs[i], name)
    ensures FindFirst(bs, name) == if i < |bs| then Some(i) else None
  {
    FindFirstIsEarliest(bs, name);
    var r := FindFirst(bs, name);
    if r.Some? {
      assert r.value >= i;
    }
  }

  /** boatExists(n) holds exactly when findBoatByName(n) finds a boat. */
  lemma ExistsIffFound(bs: seq<BoatRec>, name: string)
    ensures Exists(bs, name) <==> FindFirst(bs, name).Some?
  {
    FindFirstIsEarliest(bs, name);
    if FindFirst(bs, name).Some? {
      assert Matches(bs[FindFirst(bs, name).value], name);
    }
  }

  // ---------------------------------------------------------------------------
  // Removal (removeBoat)

  /** The list without every boat whose name matches, survivors in order. */
  function RemoveMatching(bs: seq<BoatRec>, name: string): (r: seq<BoatRec>)
    ensures |r| <= |bs|
  {
    if bs == [] then []
    else (if Matches(bs[0], name) then [] else [bs[0]]) + RemoveMatching(bs[1..], name)
  }

  /** Every survivor was in the list and does not match the name. */
  lemma {:induction false} RemoveMatchingDropsMatches(bs: seq<BoatRec>, name: string)
    ensures forall b :: b in RemoveMatching(bs, name) ==> b in bs && !Matches(b, name)
  {
    if bs != [] {
      RemoveMatchingDropsMatches(bs[1..], name);
      var head := if Matches(bs[0], name) then [] else [bs[0]];
      assert RemoveMatching(bs, name) == head + RemoveMatching(bs[1..], name);
      assert forall b :: b in bs[1..] ==> b in bs;
    }
  }

  /** Removal works piecewise: removing from a concatenation removes from each
      part, so survivors keep their relative order. */
  lemma {:induction false} RemoveMatchingAppend(a: seq<BoatRec>, c: seq<BoatRec>, name: string)
    ensures RemoveMatching(a + c, name) == RemoveMatching(a, name) + RemoveMatching(c, name)
  {
    if a == [] {
      assert a + c == c;
    } else {
      assert (a + c)[1..] == a[1..] + c;
      RemoveMatchingAppend(a[1..], c, name);
    }
  }

  /** Filtering a prefix one boat longer keeps that boat exactly when it
      does not match. */
  lemma RemoveMatchingStep(bs: seq<BoatRec>, i: nat, name: string)
    requires i < |bs|
    ensures RemoveMatching(bs[..i + 1], name)
            == RemoveMatching(bs[..i], name) + (if Matches(bs[i], name) then [] else [bs[i]])
  {
    assert bs[..i + 1] == bs[..i] + [bs[i]];
    RemoveMatchingAppend(bs[..i], [bs[i]], name);
  }

  /** Every boat that does not match survives. */
  lemma {:induction false} RemoveMatchingKeepsOthers(bs: seq<BoatRec>, name: string, b: BoatRec)
    requires b in bs && !Matches(b, name)
    ensures b in RemoveMatching(bs, name)
  {
    if bs[0] != b {
      RemoveMatchingKeepsOthers(bs[1..], name, b);
    }
  }

  /** removeBoat returns true exactly when some boat was removed, that is when
      a boat of that name existed; afterwards none exists. */
  lemma {:induction false} RemoveMatchingShrinksIffExists(bs: seq<BoatRec>, name: string)
    ensures |RemoveMatching(bs, name)| < |bs| <==> Exists(bs, name)
    ensures !Exists(RemoveMatching(bs, name), name)
  {
    if bs != [] {
      RemoveMatchingShrinksIffExists(bs[1..], name);
      if Exists(bs[1..], name) {
        var i :| 0 <= i < |bs[1..]| && Matches(bs[1..][i], name);
        assert Matches(bs[i + 1], name);
      }
      if Exists(bs, name) && !Matches(bs[0], name) {
        var i :| 0 <= i < |bs| && Matches(bs[i], name);
        assert Matches(bs[1..][i - 1], name);
      }
    }
  }

  // ---------------------------------------------------------------------------
  // Allowance and expenses (getRemainingAllowance, addExpense)

  /** price - expenses of the first match, or the sentinel -1.0. */
  function RemainingAllowance(bs: seq<BoatRec>, name: string): real
  {
    match FindFirst(bs, name)
    case Some(i) => Allowance(bs[i])
    case None => -1.0
  }

  predicate WithinPrice(bs: seq<BoatRec>)
  {
    forall i :: 0 <= i < |bs| ==> bs[i].expenses <= bs[i].price
  }

  /** While no boat has spent more than its price, the sentinel cannot be
      confused with an allowance: the answer is negative exactly when no boat
      has that name. */
  lemma SentinelMeansMissing(bs: seq<BoatRec>, name: string)
    requires WithinPrice(bs)
    ensures RemainingAllowance(bs, name) < 0.0 <==> !Exists(bs, name)
    ensures !Exists(bs, name) ==> RemainingAllowance(bs, name) == -1.0
  {
    ExistsIffFound(bs, name);
  }

  /** Fleet.addExpense on values: the list afterwards and the boolean returned.
      Only the first matching boat is charged, and the answer is whether
      Boat.addExpense returned a non-negative number. */
  function ChargeFirstMatch(bs: seq<BoatRec>, name: string, amount: real): (seq<BoatRec>, bool)
  {
    match FindFirst(bs, name)
    case None => (bs, false)
    case Some(i) =>
      var (b, remaining) := Accrue(bs[i], amount);
      (bs[i := b], remaining >= 0.0)
  }

  /** The figure of the "Expense not permitted" notice Fleet.addExpense
      prints when Boat.addExpense returned a negative number: that number
      negated.  A missing boat gets no notice. */
  function ChargeNotice(bs: seq<BoatRec>, name: string, amount: real): Option<real>
  {
    match FindFirst(bs, name)
    case None => None
    case Some(i) =>
      var remaining := Accrue(bs[i], amount).1;
      if remaining >= 0.0 then None else Some(-remaining)
  }

  /** The notice comes exactly when a boat of that name exists and the answer
      is false, and its figure is always positive. */
  lemma NoticeExactlyOnFoundFalse(bs: seq<BoatRec>, name: string, amount: real)
    ensures ChargeNotice(bs, name, amount).Some?
            <==> Exists(bs, name) && !ChargeFirstMatch(bs, name, amount).1
    ensures ChargeNotice(bs, name, amount).Some? ==> ChargeNotice(bs, name, amount).value > 0.0
  {
    ExistsIffFound(bs, name);
  }

  /** With no boat of that name nothing changes and the answer is false. */
  lemma ChargeMissingBoat(bs: seq<BoatRec>, name: string, amount: real)
    requires !Exists(bs, name)
    ensures ChargeFirstMatch(bs, name, amount) == (bs, false)
  {
    ExistsIffFound(bs, name);
  }

  /** Only the first matching boat can change, and only its expenses. */
  lemma ChargeTouchesFirstMatchOnly(bs: seq<BoatRec>, name: string, amount: real, j: nat)
    requires j < |bs|
    ensures |ChargeFirstMatch(bs, name, amount).0| == |bs|
    ensures FindFirst(bs, name) != Some(j) ==> ChargeFirstMatch(bs, name, amount).0[j] == bs[j]
    ensures FindFirst(bs, name) == Some(j) ==>
              ChargeFirstMatch(bs, name, amount).0[j] == Accrue(bs[j], amount).0
  {
  }

  /** Lookup only looks at names, so the first match before a charge is still
      the first match after it: findBoatByName finds the boat just charged. */
  lemma ChargeKeepsLookup(bs: seq<BoatRec>, name: string, amount: real)
    ensures FindFirst(ChargeFirstMatch(bs, name, amount).0, name) == FindFirst(bs, name)
  {
    var after := ChargeFirstMatch(bs, name, amount).0;
    forall j | 0 <= j < |bs|
      ensures after[j].name == bs[j].name
    {
      ChargeTouchesFirstMatchOnly(bs, name, amount, j);
    }
    SameNamesSameLookup(bs, after, name);
  }

  /** Two lists whose names agree position by position answer every lookup
      alike. */
  lemma SameNamesSameLookup(a: seq<BoatRec>, b: seq<BoatRec>, name: string)
    requires |a| == |b| && forall j :: 0 <= j < |a| ==> a[j].name == b[j].name
    ensures FindFirst(a, name) == FindFirst(b, name)
  {
    var fa, fb := FindFirst(a, name), FindFirst(b, name);
    if fa.Some? && fb.Some? {
      assert !(fa.value < fb.value) && !(fb.value < fa.value);
    }
  }

  /** A refused expense still answers true: the boat returns its allowance,
      which is not negative. */
  lemma RefusedChargeAnswersTrue(bs: seq<BoatRec>, name: string, amount: real)
    requires FindFirst(bs, name).Some?
    requires var b := bs[FindFirst(bs, name).value]; 0.0 <= Allowance(b) < amount
    ensures ChargeFirstMatch(bs, name, amount) == (bs, true)
  {
    var i := FindFirst(bs, name).value;
    assert bs[i := bs[i]] == bs;
  }

  /** An accepted expense that leaves a negative total answers false, though it
      was recorded. */
  lemma NegativeTotalAnswersFalse(bs: seq<BoatRec>, name: string, amount: real)
    requires FindFirst(bs, name).Some?
    requires var b := bs[FindFirst(bs, name).value];
             amount <= Allowance(b) && b.expenses + amount < 0.0
    ensures var i := FindFirst(bs, name).value;
            ChargeFirstMatch(bs, name, amount)
              == (bs[i := bs[i].(expenses := bs[i].expenses + amount)], false)
  {
  }

  // ---------------------------------------------------------------------------
  // The report (generateReport)

  function TotalPrice(bs: seq<BoatRec>): real
  {
    if bs == [] then 0.0 else bs[0].price + TotalPrice(bs[1..])
  }

  function TotalExpenses(bs: seq<BoatRec>): real
  {
    if bs == [] then 0.0 else bs[0].expenses + TotalExpenses(bs[1..])
  }

  /** Each string followed by a newline, in order. */
  function Lines(ls: seq<string>): string
  {
    if ls == [] then "" else ls[0] + "\n" + Lines(ls[1..])
  }

  /** Boat.toString of each boat, in list order. */
  function RenderAll(bs: seq<BoatRec>): (r: seq<string>)
    ensures |r| == |bs|
  {
    seq(|bs|, i requires 0 <= i < |bs| => Render(bs[i]))
  }

  function TotalsLine(paid: real, spent: real): string
  {
    "Total : Paid $ " + FormatFixed(paid, 2) + " : Spent $ " + FormatFixed(spent, 2) + "\n"
  }

  function Report(bs: seq<BoatRec>): string
  {
    "Fleet report:\n" + Lines(RenderAll(bs)) + TotalsLine(TotalPrice(bs), TotalExpenses(bs))
  }

  /** Totals and report lines extend one boat at a time, as the loop of
      generateReport builds them. */
  lemma {:induction false} TotalsSnoc(bs: seq<BoatRec>, b: BoatRec)
    ensures TotalPrice(bs + [b]) == TotalPrice(bs) + b.price
    ensures TotalExpenses(bs + [b]) == TotalExpenses(bs) + b.expenses
  {
    if bs != [] {
      assert (bs + [b])[1..] == bs[1..] + [b];
      TotalsSnoc(bs[1..], b);
    }
  }

  lemma {:induction false} LinesSnoc(ls: seq<string>, l: string)
    ensures Lines(ls + [l]) == Lines(ls) + (l + "\n")
  {
    if ls == [] {
      assert [] + [l] == [l];
      assert Lines([l]) == l + "\n" + "";
    } else {
      var first := ls[0] + "\n";
      var longer := ls + [l];
      assert longer[0] == ls[0] && longer[1..] == ls[1..] + [l];
      assert Lines(longer) == first + Lines(ls[1..] + [l]);
      LinesSnoc(ls[1..], l);
      assert Lines(ls[1..] + [l]) == Lines(ls[1..]) + (l + "\n");
      assert first + (Lines(ls[1..]) + (l + "\n")) == (first + Lines(ls[1..])) + (l + "\n");
    }
  }

  /** What generateReport has built after its first i boats. */
  function ReportPrefix(bs: seq<BoatRec>, i: nat): string
    requires i <= |bs|
  {
    "Fleet report:\n" + Lines(RenderAll(bs)[..i])
  }

  /** One more boat adds its line to the report ... */
  lemma ReportStep(bs: seq<BoatRec>, i: nat)
    requires i < |bs|
    ensures ReportPrefix(bs, i + 1) == ReportPrefix(bs, i) + (Render(bs[i]) + "\n")
  {
    var rs := RenderAll(bs);
    assert rs[i] == Render(bs[i]);
    LinesStep(rs, i);
    assert "Fleet report:\n" + (Lines(rs[..i]) + (rs[i] + "\n"))
        == ("Fleet report:\n" + Lines(rs[..i])) + (rs[i] + "\n");
  }

  lemma LinesStep(ls: seq<string>, i: nat)
    requires i < |ls|
    ensures Lines(ls[..i + 1]) == Lines(ls[..i]) + (ls[i] + "\n")
  {
    assert ls[..i + 1] == ls[..i] + [ls[i]];
    LinesSnoc(ls[..i], ls[i]);
  }

  /** ... and its figures to the totals. */
  lemma TotalsStep(bs: seq<BoatRec>, i: nat)
    requires i < |bs|
    ensures TotalPrice(bs[..i + 1]) == TotalPrice(bs[..i]) + bs[i].price
    ensures TotalExpenses(bs[..i + 1]) == TotalExpenses(bs[..i]) + bs[i].expenses
  {
    assert bs[..i + 1] == bs[..i] + [bs[i]];
    TotalsSnoc(bs[..i], bs[i]);
  }

  /** ReportStep as the loop of generateReport uses it: the report and the
      totals built so far, extended by the next boat and its line. */
  lemma ReportAdvance(bs: seq<BoatRec>, i: nat, report: string, paid: real, spent: real,
                      b: BoatRec, line: string)
    requires i < |bs| && b == bs[i] && line == Render(b)
    requires report == ReportPrefix(bs, i)
    requires paid == TotalPrice(bs[..i]) && spent == TotalExpenses(bs[..i])
    ensures report + (line + "\n") == ReportPrefix(bs, i + 1)
    ensures paid + b.price == TotalPrice(bs[..i + 1])
    ensures spent + b.expenses == TotalExpenses(bs[..i + 1])
  {
    ReportStep(bs, i);
    TotalsStep(bs, i);
  }

  /** After every boat, the report only lacks its totals line. */
  lemma ReportComplete(bs: seq<BoatRec>, prefix: string, paid: real, spent: real)
    requires prefix == ReportPrefix(bs, |bs|)
    requires paid == TotalPrice(bs[..|bs|]) && spent == TotalExpenses(bs[..|bs|])
    ensures prefix + TotalsLine(paid, spent) == Report(bs)
  {
    assert bs[..|bs|] == bs;
    assert RenderAll(bs)[..|bs|] == RenderAll(bs);
  }

  /** Changing one boat's expenses moves the expense total by the difference
      and leaves the price total alone. */
  lemma {:induction false} TotalsAfterUpdate(bs: seq<BoatRec>, i: nat, b: BoatRec)
    requires i < |bs| && b.price == bs[i].price
    ensures TotalPrice(bs[i := b]) == TotalPrice(bs)
    ensures TotalExpenses(bs[i := b]) == TotalExpenses(bs) - bs[i].expenses + b.expenses
  {
    if i > 0 {
      assert bs[i := b][1..] == bs[1..][i - 1 := b];
      TotalsAfterUpdate(bs[1..], i - 1, b);
    }
  }

  /** A charge moves the reported expense total by exactly what it added to
      the boat, and never moves the price total. */
  lemma ChargeMovesExpenseTotal(bs: seq<BoatRec>, name: string, amount: real)
    ensures TotalPrice(ChargeFirstMatch(bs, name, amount).0) == TotalPrice(bs)
    ensures var i := FindFirst(bs, name);
            var added := if i.Some? && amount <= Allowance(bs[i.value]) then amount else 0.0;
            TotalExpenses(ChargeFirstMatch(bs, name, amount).0) == TotalExpenses(bs) + added
  {
    match FindFirst(bs, name)
    case None =>
    case Some(i) =>
      TotalsAfterUpdate(bs, i, Accrue(bs[i], amount).0);
  }

  // ---------------------------------------------------------------------------
  // Import (loadFromCSV over the lines of a file)

  /** addBoatFromCSV on values. */
  function AddRecord(bs: seq<BoatRec>, line: string): seq<BoatRec>
  {
    match ParseRecord(line)
    case Some(b) => bs + [b]
    case None => bs
  }

  /** loadFromCSV: addBoatFromCSV applied to each line in turn. */
  function Import(bs: seq<BoatRec>, lines: seq<string>): seq<BoatRec>
    decreases |lines|
  {
    if lines == [] then bs else Import(AddRecord(bs, lines[0]), lines[1..])
  }

  /** Importing from line i on is adding line i, then importing the rest. */
  lemma ImportStep(bs: seq<BoatRec>, lines: seq<string>, i: nat)
    requires i < |lines|
    ensures Import(bs, lines[i..]) == Import(AddRecord(bs, lines[i]), lines[i + 1..])
  {
    assert lines[i..][1..] == lines[i + 1..];
  }

  /** The boats of the lines that parse, in line order. */
  function ParsedBoats(lines: seq<string>): seq<BoatRec>
  {
    if lines == [] then []
    else
      (match ParseRecord(lines[0]) case Some(b) => [b] case None => [])
        + ParsedBoats(lines[1..])
  }

  /** Importing appends the parsed boats after the existing ones; lines that
      do not parse are skipped. */
  lemma {:induction false} ImportAppendsParsed(bs: seq<BoatRec>, lines: seq<string>)
    ensures Import(bs, lines) == bs + ParsedBoats(lines)
    decreases |lines|
  {
    if lines != [] {
      ImportAppendsParsed(AddRecord(bs, lines[0]), lines[1..]);
    }
  }

  /** Importing two files in turn is importing their concatenation. */
  lemma {:induction false} ImportConcat(bs: seq<BoatRec>, l1: seq<string>, l2: seq<string>)
    ensures Import(bs, l1 + l2) == Import(Import(bs, l1), l2)
    decreases |l1|
  {
    if l1 == [] {
      assert l1 + l2 == l2;
    } else {
      assert (l1 + l2)[1..] == l1[1..] + l2;
      ImportConcat(AddRecord(bs, l1[0]), l1[1..], l2);
    }
  }

  // ---------------------------------------------------------------------------
  // The Fleet object

  /** The values of a list of boat objects. */
  ghost function Values(bs: seq<Boat>): (r: seq<BoatRec>)
    reads bs
    ensures |r| == |bs|
  {
    if bs == [] then [] else [bs[0].Value()] + Values(bs[1..])
  }

  lemma {:induction false} ValuesAt(bs: seq<Boat>, i: nat)
    requires i < |bs|
    ensures Values(bs)[i] == bs[i].Value()
  {
    if i > 0 {
      ValuesAt(bs[1..], i - 1);
    }
  }

  /** Each value is the state of the object at the same position. */
  lemma ValuesEach(bs: seq<Boat>)
    ensures forall i :: 0 <= i < |bs| ==> Values(bs)[i] == bs[i].Value()
  {
    forall i | 0 <= i < |bs|
      ensures Values(bs)[i] == bs[i].Value()
    {
      ValuesAt(bs, i);
    }
  }

  /** No object appears twice. */
  predicate Distinct<T(==)>(xs: seq<T>)
  {
    forall i, j :: 0 <= i < j < |xs| ==> xs[i] != xs[j]
  }

  /** Picking elements of a list of distinct objects in order, each at most
      once, keeps them distinct. */
  lemma PickNext<T>(all: seq<T>, kept: seq<T>, i: nat)
    requires Distinct(all) && Distinct(kept) && i < |all|
    requires forall x :: x in kept ==> x in all[..i]
    ensures Distinct(kept + [all[i]])
    ensures forall x :: x in kept + [all[i]] ==> x in all[..i + 1]
  {
    assert all[i] !in all[..i];
    assert all[..i + 1] == all[..i] + [all[i]];
  }

  lemma ValuesSnoc(bs: seq<Boat>, b: Boat)
    ensures Values(bs + [b]) == Values(bs) + [b.Value()]
  {
    if bs == [] {
      assert bs + [b] == [b];
    } else {
      assert (bs + [b])[1..] == bs[1..] + [b];
      ValuesSnoc(bs[1..], b);
    }
  }

  /** The filtering pass of removeIf: the boat objects whose name does not
      match, in order. */
  method Survivors(all: seq<Boat>, name: string) returns (kept: seq<Boat>)
    requires Distinct(all)
    ensures Values(kept) == RemoveMatching(Values(all), name)
    ensures Distinct(kept)
    ensures forall b :: b in kept ==> b in all
  {
    ghost var cs := Values(all);
    kept := [];
    var i := 0;
    while i < |all|
      invariant 0 <= i <= |all| == |cs|
      invariant Values(kept) == RemoveMatching(cs[..i], name)
      invariant forall b :: b in kept ==> b in all[..i]
      invariant Distinct(kept)
    {
      var boat := all[i];
      ValuesAt(all, i);
      RemoveMatchingStep(cs, i, name);
      if !EqualsIgnoreCase(boat.name, name) {
        PickNext(all, kept, i);
        ValuesSnoc(kept, boat);
        kept := kept + [boat];
      } else {
        assert all[..i + 1] == all[..i] + [all[i]];
      }
      i := i + 1;
    }
    assert cs[..i] == cs;
    assert all[..i] == all;
    assert cs == Values(all);
  }

  class Fleet {
    var boats: seq<Boat>

    /** No boat object appears twice: each was created by its own add. */
    ghost predicate Valid()
      reads this
    {
      Distinct(boats)
    }

    ghost function Contents(): seq<BoatRec>
      reads this, boats
    {
      Values(boats)
    }

    constructor ()
      ensures Valid() && Contents() == []
    {
      boats := [];
    }

    /** addBoatFromCSV: appends the boat a well-formed line describes, or
        changes nothing. */
    method AddBoatFromCsv(csvData: string) returns (added: bool)
      requires Valid()
      modifies this
      ensures Valid()
      ensures added == ParseRecord(csvData).Some?
      ensures Contents() == AddRecord(old(Contents()), csvData)
      ensures forall i :: 0 <= i < |boats| ==> boats[i] in old(boats) || fresh(boats[i])
    {
      var parsed := ParseRecord(csvData);
      if parsed.None? {
        return false;
      }
      var r := parsed.value;
      var boat := new Boat(r.kind, r.name, r.year, r.makeModel, r.length, r.price);
      assert boat.Value() == r;
      ValuesSnoc(boats, boat);
      boats := boats + [boat];
      return true;
    }

    /** loadFromCSV, given the lines of the file. */
    method LoadLines(lines: seq<string>)
      requires Valid()
      modifies this
      ensures Valid()
      ensures Contents() == Import(old(Contents()), lines)
      ensures forall i :: 0 <= i < |boats| ==> boats[i] in old(boats) || fresh(boats[i])
    {
      var i := 0;
      while i < |lines|
        invariant 0 <= i <= |lines|
        invariant Valid()
        invariant Import(Contents(), lines[i..]) == Import(old(Contents()), lines)
        invariant forall i :: 0 <= i < |boats| ==> boats[i] in old(boats) || fresh(boats[i])
      {
        ImportStep(Contents(), lines, i);
        var _ := AddBoatFromCsv(lines[i]);
        i := i + 1;
      }
    }

    /** removeBoat: drops every boat of that name, ignoring case
        (ArrayList.removeIf). */
    method RemoveBoat(name: string) returns (removed: bool)
      requires Valid()
      modifies this
      ensures Valid()
      ensures Contents() == RemoveMatching(old(Contents()), name)
      ensures removed == Exists(old(Contents()), name)
      ensures forall i :: 0 <= i < |boats| ==> boats[i] in old(boats)
    {
      var kept := Survivors(boats, name);
      RemoveMatchingShrinksIffExists(Values(boats), name);
      removed := |kept| < |boats|;
      boats := kept;
    }
    /** findBoatByName: the earliest boat whose name matches, or null. */
    method FindBoatByName(name: string) returns (boat: Boat?)
      ensures match FindFirst(Contents(), name)
              case None => boat == null
              case Some(k) => boat == boats[k]
    {
      ghost var cs := Contents();
      for i := 0 to |boats|
        invariant forall j :: 0 <= j < i ==> !Matches(cs[j], name)
      {
        ValuesAt(boats, i);
        if EqualsIgnoreCase(boats[i].name, name) {
          FirstMatchAt(cs, name, i);
          return boats[i];
        }
      }
      FirstMatchAt(cs, name, |cs|);
      return null;
    }

    /** boatExists: whether some boat has that name, ignoring case. */
    method BoatExists(name: string) returns (found: bool)
      ensures found == Exists(Contents(), name)
      ensures found == FindFirst(Contents(), name).Some?
    {
      ghost var cs := Contents();
      for i := 0 to |boats|
        invariant forall j :: 0 <= j < i ==> !Matches(cs[j], name)
      {
        ValuesAt(boats, i);
        if EqualsIgnoreCase(boats[i].name, name) {
          FirstMatchAt(cs, name, i);
          ExistsIffFound(cs, name);
          return true;
        }
      }
      FirstMatchAt(cs, name, |cs|);
      ExistsIffFound(cs, name);
      return false;
    }

    /** getRemainingAllowance: price - expenses of the first match, or -1.0. */
    method GetRemainingAllowance(name: string) returns (remaining: real)
      ensures remaining == RemainingAllowance(Contents(), name)
    {
      var boat := FindBoatByName(name);
      ValuesEach(boats);
      if boat != null {
        return boat.price - boat.expenses;
      }
      return -1.0;
    }

    /** addExpense: charges the first match through Boat.addExpense and answers
        whether the number it returned is not negative; notice is the figure
        of the message it prints otherwise. */
    method AddExpense(name: string, amount: real) returns (ok: bool, notice: Option<real>)
      requires Valid()
      modifies boats
      ensures Valid()
      ensures (Contents(), ok) == ChargeFirstMatch(old(Contents()), name, amount)
      ensures notice == ChargeNotice(old(Contents()), name, amount)
    {
      notice := None;
      var boat := FindBoatByName(name);
      if boat != null {
        ghost var k := FindFirst(Contents(), name).value;
        ghost var before := Contents();
        ValuesEach(boats);
        var remainingAllowance := boat.AddExpense(amount);
        ValuesEach(boats);
        assert forall j :: 0 <= j < |boats| && j != k ==> boats[j] != boat;
        assert Contents() == before[k := boat.Value()];
        if remainingAllowance >= 0.0 {
          return true, None;
        }
        notice := Some(-remainingAllowance);
      }
      return false, notice;
    }

    /** generateReport: a header, one line per boat in order, and the totals of
        the prices and of the expenses. */
    method GenerateReport() returns (report: string)
      ensures report == Report(Contents())
    {
      ghost var cs := Contents();
      report := "Fleet report:\n";
      var totalPrice, totalExpenses := 0.0, 0.0;
      for i := 0 to |boats|
        invariant report == ReportPrefix(cs, i)
        invariant totalPrice == TotalPrice(cs[..i])
        invariant totalExpenses == TotalExpenses(cs[..i])
      {
        var boat := boats[i];
        ValuesAt(boats, i);
        var line := boat.ToString();
        ReportAdvance(cs, i, report, totalPrice, totalExpenses, boat.Value(), line);
        report := report + (line + "\n");
        totalPrice := totalPrice + boat.price;
        totalExpenses := totalExpenses + boat.expenses;
      }
      assert cs == Contents();
      ReportComplete(cs, report, totalPrice, totalExpenses);
      report := report + TotalsLine(totalPrice, totalExpenses);
    }
  }
}

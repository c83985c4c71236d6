/**
 * The `transform` pipeline over a table of implied-volatility records: it
 * derives the contract label, drops rows with a null Trade Date or a null
 * Instrument Name (only reporting expired rows), splits each RIC into
 * base and moneyness (giving up on the whole table when one cannot be split),
 * derives contract year, month and month code, renames columns and adds the
 * symbol. Each stage reassigns a local copy of the table; the caller's table
 * is a value and cannot change.
 */
module Pipeline {
  import opened Wrappers
  import opened Ric
  import opened Tables
  import opened Contracts
  import opened Selection

  /** A calendar date as `pd.to_datetime` would give it, time of day left out. */
  datatype Date = Date(year: int, month: int, day: int)

  /** `a < b` on dates: lexicographic on (year, month, day). */
  predicate Before(a: Date, b: Date)
  {
    a.year < b.year
    || (a.year == b.year && (a.month < b.month || (a.month == b.month && a.day < b.day)))
  }

  /**
   * A cell of a raw column the code never reads: null, a number or a text,
   * carried as it is.
   */
  datatype Cell = Null | Number(number: real) | Text(text: string)

  /**
   * One row of the table: the raw columns the code reads, the cells of every
   * other raw column (the float fields among them) carried as they are, and
   * the columns `transform` writes. A row of the caller's table may already
   * hold values in the written columns; as with pandas' column assignment,
   * they are overwritten.
   */
  datatype Row = Row(
    instrumentName: Option<string>,
    ric: Option<string>,
    tradeDate: Option<Date>,
    expirationDate: Option<Date>,
    term: Option<string>,
    period: Option<string>,
    contributor: Option<string>,
    otherCells: seq<Cell>,
    contract: Option<string>,
    base: Option<string>,
    moneyness: Option<string>,
    contractYear: Option<int>,
    contractMonth: Option<string>,
    checkDigitYear: Option<int>,
    checkDigitPeriod: char,
    compare: bool,
    monthCode: Option<char>,
    symbol: Option<string>)

  /** A data frame: its column labels and its rows. */
  datatype Frame = Frame(columns: seq<string>, rows: seq<Row>)

  /** The three warnings `transform` prints, as flags. */
  datatype Warnings = Warnings(nullTradeDate: bool, expired: bool, nullName: bool)

  predicate HasTradeDate(r: Row)
  {
    r.tradeDate.Some?
  }

  predicate HasName(r: Row)
  {
    r.instrumentName.Some?
  }

  /** The rows that the two drops keep. */
  predicate Survives(r: Row)
  {
    HasTradeDate(r) && HasName(r)
  }

  /** `Expiration Date < Trade Date`; a missing date (NaT) compares false. */
  predicate Expired(r: Row)
  {
    r.tradeDate.Some? && r.expirationDate.Some? && Before(r.expirationDate.value, r.tradeDate.value)
  }

  /** `parse_base` and `parse_m` succeed: the RIC is a string whose truncation is longer than two. */
  predicate RicParses(r: Row)
  {
    r.ric.Some? && Parse(r.ric.value).Some?
  }

  /** `x[:3]`, `x[-1]` and `int(x[-1])` succeed on the Period cell. */
  predicate PeriodReadable(r: Row)
  {
    r.period.Some? && WellFormedPeriod(r.period.value)
  }

  /** Date comparison is a strict total order. */
  lemma BeforeIsStrictTotalOrder(a: Date, b: Date, c: Date)
    ensures !Before(a, a)
    ensures Before(a, b) && Before(b, c) ==> Before(a, c)
    ensures a != b ==> Before(a, b) || Before(b, a)
    ensures Before(a, b) ==> !Before(b, a)
  {
  }

  /** `df['Expiration Date'].dt.year`. */
  function YearOf(d: Option<Date>): (y: Option<int>)
  {
    match d
    case None => None
    case Some(date) => Some(date.year)
  }

  /** `check_digit_contract_year != int(check_digit_Period)`: NaN differs from every digit. */
  function DigitsDiffer(yearDigit: Option<int>, periodDigit: char): (differ: bool)
    requires IsDigit(periodDigit)
  {
    yearDigit.None? || yearDigit.value != DigitValue(periodDigit)
  }

  /** `+= 1` on a year cell; NaN stays NaN. */
  function Increment(year: Option<int>): (next: Option<int>)
  {
    match year
    case None => None
    case Some(y) => Some(y + 1)
  }

  const SYMBOL_PREFIX: string := "FUTURE_VOL_"

  /** `'FUTURE_VOL_' + Contributor Short Name`; a null name gives a null symbol. */
  function Symbol(contributor: Option<string>): (s: Option<string>)
    ensures s.Some? <==> contributor.Some?
    ensures s.Some? ==> |s.value| >= |SYMBOL_PREFIX| && s.value[..|SYMBOL_PREFIX|] == SYMBOL_PREFIX && s.value[|SYMBOL_PREFIX|..] == contributor.value
  {
    match contributor
    case None => None
    case Some(c) => Some(SYMBOL_PREFIX + c)
  }

  /** Assigning a column: a new label goes at the end, an existing one keeps its place. */
  function AddColumn(columns: seq<string>, name: string): (r: seq<string>)
    ensures name in r && columns <= r
    ensures name in columns ==> r == columns
    ensures name !in columns ==> r == columns + [name]
  {
    if name in columns then columns else columns + [name]
  }

  /** The labels of the columns `transform` writes before renaming, in the order it writes them. */
  const DERIVED_COLUMNS: seq<string> := [
    "contract", "Base", "Moneyness", "contract_year", "contract_month",
    "check_digit_contract_year", "check_digit_Period", "compare", "month_code"
  ]

  /**
   * Assigning the columns `names` one after another: the header stays a
   * prefix, every assigned label is present, no other label appears, and at
   * most one label is added per assignment.
   */
  function AddColumns(columns: seq<string>, names: seq<string>): (r: seq<string>)
    ensures columns <= r
    ensures forall n :: n in names ==> n in r
    ensures forall x :: x in r ==> x in columns || x in names
    ensures |r| <= |columns| + |names|
    decreases |names|
  {
    if names == [] then columns
    else
      assert forall x :: x in names[1..] ==> x in names;
      AddColumns(AddColumn(columns, names[0]), names[1..])
  }

  /** The header of the table `transform` returns. */
  function OutputColumns(header: seq<string>): (columns: seq<string>)
  {
    AddColumn(RenameColumns(AddColumns(header, DERIVED_COLUMNS)), "symbol")
  }

  /**
   * Renaming after adding labels: the renamed header is a prefix, every added
   * label appears renamed, and every label is a renamed header label or a
   * renamed added one.
   */
  lemma RenamedAddedColumns(header: seq<string>, names: seq<string>)
    ensures RenameColumns(header) <= RenameColumns(AddColumns(header, names))
    ensures forall n :: n in names ==> RenameColumn(n) in RenameColumns(AddColumns(header, names))
    ensures forall x :: x in RenameColumns(AddColumns(header, names)) ==>
      x in RenameColumns(header) || x in RenameColumns(names)
  {
    var added := AddColumns(header, names);
    var renamed := RenameColumns(added);
    assert RenameColumns(header) <= renamed by {
      assert forall i :: 0 <= i < |header| ==> renamed[i] == RenameColumn(header[i]);
    }
    forall n | n in names
      ensures RenameColumn(n) in renamed
    {
      var i :| 0 <= i < |added| && added[i] == n;
      assert renamed[i] == RenameColumn(n);
    }
    forall x | x in renamed
      ensures x in RenameColumns(header) || x in RenameColumns(names)
    {
      var i :| 0 <= i < |renamed| && renamed[i] == x;
      if added[i] in header {
        var j :| 0 <= j < |header| && header[j] == added[i];
        assert RenameColumns(header)[j] == x;
      } else {
        var j :| 0 <= j < |names| && names[j] == added[i];
        assert RenameColumns(names)[j] == x;
      }
    }
  }

  /** No derived label is one that FIELDS_MAP renames. */
  lemma DerivedColumnsNotRenamed()
    ensures forall n :: n in DERIVED_COLUMNS ==> n !in FIELDS_MAP
    ensures RenameColumns(DERIVED_COLUMNS) == DERIVED_COLUMNS
  {
    forall i | 0 <= i < |DERIVED_COLUMNS|
      ensures DERIVED_COLUMNS[i] !in FIELDS_MAP
    {
    }
  }

  /**
   * The header `transform` returns starts with the caller's header, each
   * label renamed in place; every derived label and `symbol` are in it, and
   * it holds no other label.
   */
  lemma OutputColumnsCover(header: seq<string>)
    ensures RenameColumns(header) <= OutputColumns(header)
    ensures forall n :: n in DERIVED_COLUMNS ==> n in OutputColumns(header)
    ensures "symbol" in OutputColumns(header)
    ensures forall n :: n in OutputColumns(header) ==>
      n in RenameColumns(header) || n in DERIVED_COLUMNS || n == "symbol"
  {
    var renamed := RenameColumns(AddColumns(header, DERIVED_COLUMNS));
    var output := OutputColumns(header);
    assert output == AddColumn(renamed, "symbol");
    assert RenameColumns(header) <= output by {
      RenamedAddedColumns(header, DERIVED_COLUMNS);
    }
    assert forall n :: n in DERIVED_COLUMNS ==> n in output by {
      RenamedAddedColumns(header, DERIVED_COLUMNS);
      DerivedColumnsNotRenamed();
      forall n | n in DERIVED_COLUMNS
        ensures n in renamed
      {
        assert RenameColumn(n) == n;
      }
    }
    assert forall n :: n in output ==> n in RenameColumns(header) || n in DERIVED_COLUMNS || n == "symbol" by {
      RenamedAddedColumns(header, DERIVED_COLUMNS);
      DerivedColumnsNotRenamed();
    }
  }

  /**
   * `o` is the row `transform` returns for the input row `r`: the raw
   * columns are unchanged, and each written column holds what its rule gives
   * for `r`.
   */
  predicate RowDerivedFrom(r: Row, o: Row)
  {
    // raw columns, untouched
    o.instrumentName == r.instrumentName && o.ric == r.ric && o.tradeDate == r.tradeDate
    && o.expirationDate == r.expirationDate && o.term == r.term && o.period == r.period
    && o.contributor == r.contributor && o.otherCells == r.otherCells
    // contract label
    && o.contract == ContractLabel(r.term, r.period)
    // base and moneyness split the RIC
    && r.ric.Some? && o.base.Some? && o.moneyness.Some?
    && Parse(r.ric.value) == Some((o.base.value, o.moneyness.value))
    // contract year, month and month code
    && PeriodReadable(r)
    && o.contractYear == ContractYear(YearOf(r.expirationDate), r.period.value)
    && o.contractMonth == Some(ContractMonth(r.period.value))
    && o.monthCode == MonthCode(ContractMonth(r.period.value))
    && (o.checkDigitYear.Some? <==> r.expirationDate.Some?)
    && (o.checkDigitYear.Some? ==> o.checkDigitYear.value == r.expirationDate.value.year % 10)
    && o.checkDigitPeriod == r.period.value[|r.period.value| - 1]
    && (o.compare <==> o.contractYear != YearOf(r.expirationDate) || r.expirationDate.None?)
    // symbol
    && o.symbol == Symbol(r.contributor)
  }


  /** `df.assign(contract=df['Term'])` followed by `fillna(df['Period'])`, on one row. */
  function WithContract(r: Row): (o: Row)
    ensures o == r.(contract := o.contract)
    ensures o.contract == ContractLabel(r.term, r.period)
  {
    r.(contract := ContractLabel(r.term, r.period))
  }

  /** `df['Trade Date'].isna().any()`. */
  predicate AnyNullTradeDate(table: seq<Row>)
  {
    exists i :: 0 <= i < |table| && table[i].tradeDate.None?
  }

  /** `not df[df['Expiration Date'] < df['Trade Date']].empty`. */
  predicate AnyExpired(table: seq<Row>)
  {
    exists i :: 0 <= i < |table| && Expired(table[i])
  }

  /** `not df[df['Instrument Name'].isnull()].empty`. */
  predicate AnyNullName(table: seq<Row>)
  {
    exists i :: 0 <= i < |table| && table[i].instrumentName.None?
  }

  /** A row that survives the first drop but has no Instrument Name. */
  predicate AnyDatedNullName(rows: seq<Row>)
  {
    exists i :: 0 <= i < |rows| && HasTradeDate(rows[i]) && rows[i].instrumentName.None?
  }

  /** The contract column written on every row. */
  function WithContracts(rows: seq<Row>): (r: seq<Row>)
    ensures |r| == |rows|
    ensures forall i :: 0 <= i < |rows| ==> r[i] == WithContract(rows[i])
  {
    seq(|rows|, i requires 0 <= i < |rows| => WithContract(rows[i]))
  }

  /**
   * The cleaning lines of `transform`: the contract column is written on
   * every row, then rows with a null Trade Date are dropped, then rows with a
   * null Instrument Name. Expired rows are only reported.
   */
  method Clean(rows: seq<Row>) returns (table: seq<Row>, warnings: Warnings)
    ensures |table| == |Kept(rows, Survives)|
    ensures forall j :: 0 <= j < |table| ==>
      table[j] == WithContract(rows[Kept(rows, Survives)[j]])
    ensures warnings.nullTradeDate <==> AnyNullTradeDate(rows)
    ensures warnings.expired <==> AnyExpired(rows)
    ensures warnings.nullName <==> AnyDatedNullName(rows)
  {
    // contract = Term, with nulls filled from Period
    table := WithContracts(rows);
    ghost var withContract := table;

    // warn about, then drop, rows with a null Trade Date
    var nullTradeDate := AnyNullTradeDate(table);
    assert nullTradeDate <==> AnyNullTradeDate(rows) by {
      assert forall i :: 0 <= i < |rows| ==> table[i].tradeDate == rows[i].tradeDate;
    }
    table := Filter(table, HasTradeDate);

    // expired rows are reported and kept
    var expired := AnyExpired(table);
    assert expired <==> AnyExpired(rows) by {
      ExpiredWarning(rows, withContract, table);
    }

    // warn about, then drop, rows with a null Instrument Name
    var nullName := AnyNullName(table);
    assert nullName <==> AnyDatedNullName(rows) by {
      NullNameWarning(rows, withContract, table);
    }
    table := Filter(table, HasName);
    warnings := Warnings(nullTradeDate, expired, nullName);
    DropsKeepSurvivors(rows, withContract);
  }

  /** Both drops together keep the rows at positions `Kept(rows, Survives)`. */
  lemma DropsKeepSurvivors(rows: seq<Row>, table: seq<Row>)
    requires |table| == |rows|
    requires forall i :: 0 <= i < |rows| ==> table[i] == WithContract(rows[i])
    ensures |Filter(Filter(table, HasTradeDate), HasName)| == |Kept(rows, Survives)|
    ensures forall j :: 0 <= j < |Kept(rows, Survives)| ==>
      Filter(Filter(table, HasTradeDate), HasName)[j] == table[Kept(rows, Survives)[j]]
  {
    FilterFilter(table, HasTradeDate, HasName, Survives);
    KeptSameMask(table, Survives, rows, Survives);
    FilterSelectsKept(table, Survives);
  }

  /** The expired check, made after the first drop, sees an expired row exactly when the caller's table has one. */
  lemma ExpiredWarning(rows: seq<Row>, table: seq<Row>, after: seq<Row>)
    requires |table| == |rows|
    requires forall i :: 0 <= i < |rows| ==> table[i] == WithContract(rows[i])
    requires after == Filter(table, HasTradeDate)
    ensures AnyExpired(after) <==> AnyExpired(rows)
  {
    FilterKeepsWitnesses(table, HasTradeDate, Expired);
    assert forall i :: 0 <= i < |rows| ==> Expired(table[i]) == Expired(rows[i]);
  }

  /** The null-name check, made after the first drop, sees exactly the rows with a Trade Date and no name. */
  lemma NullNameWarning(rows: seq<Row>, table: seq<Row>, after: seq<Row>)
    requires |table| == |rows|
    requires forall i :: 0 <= i < |rows| ==> table[i] == WithContract(rows[i])
    requires after == Filter(table, HasTradeDate)
    ensures AnyNullName(after) <==> AnyDatedNullName(rows)
  {
    var nullName := (r: Row) => HasTradeDate(r) && r.instrumentName.None?;
    FilterKeepsWitnesses(table, HasTradeDate, nullName);
    assert forall j :: 0 <= j < |after| ==> nullName(after[j]) == after[j].instrumentName.None?;
    assert forall i :: 0 <= i < |rows| ==> nullName(table[i]) == (HasTradeDate(rows[i]) && rows[i].instrumentName.None?);
  }

  /** `w` is `t` with its Base and Moneyness cells holding the two parts of its RIC. */
  predicate RowSplit(t: Row, w: Row)
  {
    w.base.Some? && w.moneyness.Some? && t.ric.Some?
    && Parse(t.ric.value) == Some((w.base.value, w.moneyness.value))
    && w == t.(base := w.base, moneyness := w.moneyness)
  }

  /**
   * `df['Base'] = df['RIC'].apply(parse_base)` and the same for `Moneyness`
   * inside the `try`: the first row whose RIC cannot be parsed (a null RIC,
   * or a truncated RIC of at most two characters) ends the stage with
   * `None`. The two applies fail on the same rows, so one pass models both.
   */
  method ParseRics(table: seq<Row>) returns (parsed: Option<seq<Row>>)
    ensures parsed.None? <==> exists k :: 0 <= k < |table| && !RicParses(table[k])
    ensures parsed.Some? ==> |parsed.value| == |table|
    ensures parsed.Some? ==> forall k :: 0 <= k < |table| ==> RowSplit(table[k], parsed.value[k])
  {
    var done: seq<Row> := [];
    var j := 0;
    while j < |table|
      invariant 0 <= j <= |table|
      invariant |done| == j
      invariant forall k :: 0 <= k < j ==> RicParses(table[k])
      invariant forall k :: 0 <= k < j ==>
        done[k] == table[k].(base := ParseBase(table[k].ric.value), moneyness := ParseMoneyness(table[k].ric.value))
    {
      var ric := table[j].ric;
      if ric.None? || Parse(ric.value).None? {
        return None;
      }
      done := done + [table[j].(base := ParseBase(ric.value), moneyness := ParseMoneyness(ric.value))];
      j := j + 1;
    }
    parsed := Some(done);
  }

  /** What the contract-year, contract-month and month-code lines write into a row. */
  predicate ContractColumnsOf(r: Row, o: Row)
    requires PeriodReadable(r)
  {
    o.contractYear == ContractYear(YearOf(r.expirationDate), r.period.value)
    && o.contractMonth == Some(ContractMonth(r.period.value))
    && o.monthCode == MonthCode(ContractMonth(r.period.value))
    && (o.checkDigitYear.Some? <==> r.expirationDate.Some?)
    && (o.checkDigitYear.Some? ==> o.checkDigitYear.value == r.expirationDate.value.year % 10)
    && o.checkDigitPeriod == r.period.value[|r.period.value| - 1]
    && (o.compare <==> o.contractYear != YearOf(r.expirationDate) || r.expirationDate.None?)
    && o == r.(contractYear := o.contractYear, contractMonth := o.contractMonth, monthCode := o.monthCode,
               checkDigitYear := o.checkDigitYear, checkDigitPeriod := o.checkDigitPeriod, compare := o.compare)
  }

  /**
   * contract_year from the expiration date, contract_month from Period, the
   * two check digits and their comparison, the conditional increment, and
   * month_code through the month dictionary, one column at a time. The
   * row-wise `apply` of the comparison needs at least one row: on an empty
   * table it yields a frame, and assigning that to one column raises.
   */
  method DeriveContractColumns(table: seq<Row>) returns (result: seq<Row>)
    requires |table| > 0
    requires forall k :: 0 <= k < |table| ==> PeriodReadable(table[k])
    ensures |result| == |table|
    ensures forall k :: 0 <= k < |table| ==> ContractColumnsOf(table[k], result[k])
  {
    result := seq(|table|, i requires 0 <= i < |table| =>
      table[i].(contractYear := YearOf(table[i].expirationDate)));
    ghost var withYear := result;
    result := seq(|result|, i requires 0 <= i < |result| && PeriodReadable(result[i]) =>
      result[i].(contractMonth := Some(ContractMonth(result[i].period.value))));
    ghost var withMonth := result;
    result := seq(|result|, i requires 0 <= i < |result| =>
      result[i].(checkDigitYear := YearDigit(result[i].contractYear)));
    ghost var withYearDigit := result;
    result := seq(|result|, i requires 0 <= i < |result| && PeriodReadable(result[i]) =>
      result[i].(checkDigitPeriod := CheckDigitOfPeriod(result[i].period.value)));
    ghost var withPeriodDigit := result;
    result := seq(|result|, i requires 0 <= i < |result| && IsDigit(result[i].checkDigitPeriod) =>
      result[i].(compare := DigitsDiffer(result[i].checkDigitYear, result[i].checkDigitPeriod)));
    ghost var compared := result;
    result := seq(|result|, i requires 0 <= i < |result| =>
      if result[i].compare then result[i].(contractYear := Increment(result[i].contractYear)) else result[i]);
    ghost var incremented := result;
    result := seq(|result|, i requires 0 <= i < |result| =>
      result[i].(monthCode := MonthCodeOf(result[i].contractMonth)));
    forall k | 0 <= k < |table|
      ensures ContractColumnsOf(table[k], result[k])
    {
      ContractStages(table[k], withYear[k], withMonth[k], withYearDigit[k], withPeriodDigit[k],
                     compared[k], incremented[k], result[k]);
    }
  }

  /** `.apply(lambda x: x%10)` on a year cell; NaN stays NaN. */
  function YearDigit(year: Option<int>): (d: Option<int>)
    ensures d.Some? <==> year.Some?
    ensures d.Some? ==> 0 <= d.value <= 9 && (year.value - d.value) % 10 == 0
  {
    match year
    case None => None
    case Some(y) => Some(CheckDigitOfYear(y))
  }

  /** `.map(MONTH_NAME_TO_CODE)` on a contract-month cell; NaN stays NaN. */
  function MonthCodeOf(month: Option<string>): (c: Option<char>)
    ensures c.Some? <==> month.Some? && month.value in MONTH_NAMES
    ensures month.Some? ==> c == MonthCode(month.value)
  {
    match month
    case None => None
    case Some(m) => MonthCode(m)
  }

  /** The seven column assignments, one row at a time, write what `ContractColumnsOf` describes. */
  lemma ContractStages(r: Row, withYear: Row, withMonth: Row, withYearDigit: Row, withPeriodDigit: Row,
                       compared: Row, incremented: Row, o: Row)
    requires PeriodReadable(r)
    requires withYear == r.(contractYear := YearOf(r.expirationDate))
    requires withMonth == withYear.(contractMonth := Some(ContractMonth(r.period.value)))
    requires withYearDigit == withMonth.(checkDigitYear := YearDigit(withMonth.contractYear))
    requires withPeriodDigit == withYearDigit.(checkDigitPeriod := CheckDigitOfPeriod(r.period.value))
    requires IsDigit(withPeriodDigit.checkDigitPeriod)
    requires compared == withPeriodDigit.(compare := DigitsDiffer(withPeriodDigit.checkDigitYear, withPeriodDigit.checkDigitPeriod))
    requires incremented == if compared.compare then compared.(contractYear := Increment(compared.contractYear)) else compared
    requires o == incremented.(monthCode := MonthCodeOf(incremented.contractMonth))
    ensures ContractColumnsOf(r, o)
  {
  }

  /** `df.assign(symbol=...)` on one row. */
  function WithSymbol(r: Row): (o: Row)
    ensures o == r.(symbol := o.symbol)
    ensures o.symbol == Symbol(r.contributor)
  {
    r.(symbol := Symbol(r.contributor))
  }

  /** The stages of `transform`, one row at a time, give the row `RowDerivedFrom` describes. */
  lemma StagesDeriveRow(r: Row, labelled: Row, split: Row, dated: Row, o: Row)
    requires labelled == WithContract(r)
    requires RowSplit(labelled, split)
    requires PeriodReadable(split) && ContractColumnsOf(split, dated)
    requires o == WithSymbol(dated)
    ensures RowDerivedFrom(r, o)
  {
  }

  /** A kept row whose RIC cannot be parsed comes from a surviving row of the caller's table. */
  lemma FailureComesFromSurvivor(rows: seq<Row>, table: seq<Row>, k: int)
    requires |table| == |Kept(rows, Survives)|
    requires forall j :: 0 <= j < |table| ==> table[j] == WithContract(rows[Kept(rows, Survives)[j]])
    requires 0 <= k < |table| && !RicParses(table[k])
    ensures exists i :: 0 <= i < |rows| && Survives(rows[i]) && !RicParses(rows[i])
  {
    var kept := Kept(rows, Survives);
    assert table[k].ric == rows[kept[k]].ric;
    assert Survives(rows[kept[k]]) && !RicParses(rows[kept[k]]);
  }

  /**
   * Once every kept RIC parses, every surviving row of the caller's table
   * parses, and each split row carries the Period of its source row.
   */
  lemma SurvivorsParse(rows: seq<Row>, table: seq<Row>, split: seq<Row>)
    requires |table| == |Kept(rows, Survives)| && |split| == |table|
    requires forall j :: 0 <= j < |table| ==> table[j] == WithContract(rows[Kept(rows, Survives)[j]])
    requires forall j :: 0 <= j < |table| ==> RowSplit(table[j], split[j])
    ensures forall i :: 0 <= i < |rows| && Survives(rows[i]) ==> RicParses(rows[i])
    ensures forall j :: 0 <= j < |split| ==>
      split[j].period == rows[Kept(rows, Survives)[j]].period && Survives(rows[Kept(rows, Survives)[j]])
  {
    var kept := Kept(rows, Survives);
    KeptOrderedAndComplete(rows, Survives);
    forall i | 0 <= i < |rows| && Survives(rows[i])
      ensures RicParses(rows[i])
    {
      var k :| 0 <= k < |kept| && kept[k] == i;
      assert table[k].ric == rows[i].ric;
    }
  }

  /** Every row of the result is derived from the surviving row at the same position. */
  lemma RowsDerived(rows: seq<Row>, table: seq<Row>, split: seq<Row>, dated: seq<Row>, result: seq<Row>)
    requires |table| == |Kept(rows, Survives)| && |split| == |table| && |dated| == |split| && |result| == |dated|
    requires forall j :: 0 <= j < |table| ==> table[j] == WithContract(rows[Kept(rows, Survives)[j]])
    requires forall j :: 0 <= j < |table| ==> RowSplit(table[j], split[j])
    requires forall j :: 0 <= j < |split| ==> PeriodReadable(split[j])
    requires forall j :: 0 <= j < |split| ==> ContractColumnsOf(split[j], dated[j])
    requires forall j :: 0 <= j < |dated| ==> result[j] == WithSymbol(dated[j])
    ensures forall j :: 0 <= j < |result| ==> RowDerivedFrom(rows[Kept(rows, Survives)[j]], result[j])
  {
    var kept := Kept(rows, Survives);
    KeptOrderedAndComplete(rows, Survives);
    forall j | 0 <= j < |result|
      ensures RowDerivedFrom(rows[kept[j]], result[j])
    {
      StagesDeriveRow(rows[kept[j]], table[j], split[j], dated[j], result[j]);
    }
  }

  /**
   * The header as the column assignments, the rename and the symbol
   * assignment leave it. Every label of the caller's header is kept, renamed
   * where FIELDS_MAP says so, and `symbol` comes last unless already present.
   */
  method Header(header: seq<string>) returns (columns: seq<string>)
    ensures columns == OutputColumns(header)
  {
    columns := AddColumns(header, DERIVED_COLUMNS);
    columns := RenameColumns(columns);
    columns := AddColumn(columns, "symbol");
  }

  /**
   * The row work of `transform`: cleaning, then the RIC split inside the
   * `try`, then the contract columns and the symbol. `None` when a kept RIC
   * cannot be parsed; the warnings are returned either way.
   */
  method TransformRows(rows: seq<Row>) returns (out: Option<seq<Row>>, warnings: Warnings)
    requires exists i :: 0 <= i < |rows| && Survives(rows[i])
    requires (forall i :: 0 <= i < |rows| && Survives(rows[i]) ==> RicParses(rows[i])) ==>
             (forall i :: 0 <= i < |rows| && Survives(rows[i]) ==> PeriodReadable(rows[i]))
    ensures warnings.nullTradeDate <==> AnyNullTradeDate(rows)
    ensures warnings.expired <==> AnyExpired(rows)
    ensures warnings.nullName <==> AnyDatedNullName(rows)
    ensures out.None? <==> exists i :: 0 <= i < |rows| && Survives(rows[i]) && !RicParses(rows[i])
    ensures out.Some? ==> |out.value| == |Kept(rows, Survives)|
    ensures out.Some? ==> forall j :: 0 <= j < |out.value| ==>
              RowDerivedFrom(rows[Kept(rows, Survives)[j]], out.value[j])
  {
    var table;
    table, warnings := Clean(rows);

    // Base and Moneyness, inside the `try`
    var parsed := ParseRics(table);
    if parsed.None? {
      ghost var k :| 0 <= k < |table| && !RicParses(table[k]);
      FailureComesFromSurvivor(rows, table, k);
      return None, warnings;
    }
    var split := parsed.value;
    SurvivorsParse(rows, table, split);
    KeptOrderedAndComplete(rows, Survives);

    // contract_year, contract_month, the check digits and month_code
    var dated := DeriveContractColumns(split);

    // the symbol
    var result := seq(|dated|, i requires 0 <= i < |dated| => WithSymbol(dated[i]));
    RowsDerived(rows, table, split, dated, result);
    out := Some(result);
  }

  /**
   * `transform(df, instruments_)`. The second table is never read and is
   * left out. `None` is the `return` (None) after a RIC that cannot be
   * parsed; the warnings are printed before that point, so they are returned
   * either way. The requires clauses are what the code demands outside its
   * `try`: some row survives the two drops (with none, the comparison's
   * row-wise `apply` raises), and once every kept RIC parses, every kept row
   * has a Period whose last character is a decimal digit.
   */
  method Transform(header: seq<string>, rows: seq<Row>) returns (out: Option<Frame>, warnings: Warnings)
    requires exists i :: 0 <= i < |rows| && Survives(rows[i])
    requires (forall i :: 0 <= i < |rows| && Survives(rows[i]) ==> RicParses(rows[i])) ==>
             (forall i :: 0 <= i < |rows| && Survives(rows[i]) ==> PeriodReadable(rows[i]))
    ensures warnings.nullTradeDate <==> AnyNullTradeDate(rows)
    ensures warnings.expired <==> AnyExpired(rows)
    ensures warnings.nullName <==> AnyDatedNullName(rows)
    ensures out.None? <==> exists i :: 0 <= i < |rows| && Survives(rows[i]) && !RicParses(rows[i])
    ensures out.Some? ==> out.value.columns == OutputColumns(header)
    ensures out.Some? ==> |out.value.rows| == |Kept(rows, Survives)|
    ensures out.Some? ==> forall j :: 0 <= j < |out.value.rows| ==>
              RowDerivedFrom(rows[Kept(rows, Survives)[j]], out.value.rows[j])
  {
    var result;
    result, warnings := TransformRows(rows);
    if result.None? {
      return None, warnings;
    }
    var columns := Header(header);
    out := Some(Frame(columns, result.value));
  }
}

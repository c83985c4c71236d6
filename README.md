# Normalising a table of futures implied-volatility records

The script `main.py` of CodingTest normalises a raw table of implied-volatility
observations of futures options. Its `transform` does the following, in order:

1. Derives a `contract` label: the Term, or the Period when the Term is null.
2. Drops the rows with a null Trade Date.
3. Reports expired instruments.
4. Drops the rows with a null Instrument Name.
5. Splits each Reuters Instrument Code (RIC) into a base and a moneyness. It
   gives up on the whole table when one code cannot be split.
6. Derives the contract year and month, the two check digits, and the futures
   month code.
7. Renames columns through `FIELDS_MAP`.
8. Adds a `symbol` column.

This project models those steps and the module-level tables they use. It
proves what each step computes, and what the table as a whole is, in terms of
the caller's rows.

Modules:

- `Wrappers`: an `Option` type.
- `Ric`:
  - `parse`, `parse_base` and `parse_m`;
  - `ric.split("N")[0]`, modelled on a Python-style `Split`.
- `Tables`:
  - `MONTH_CODES`, `MONTH_NAMES`, `MONTH_NAME_TO_CODE`, `FIELDS_MAP` and
    `FLOAT_FIELDS`;
  - the month-code lookup;
  - the column rename.
- `Contracts`: the per-row rules for the contract label, the contract year and
  the contract month.
- `Selection`: boolean-mask row selection (`df[mask]`, `dropna`).
  - `Filter` gives the kept rows.
  - `Kept` gives the positions they came from.
- `Pipeline`:
  - the row and frame types;
  - the stages of `transform` as methods;
  - the relation `RowDerivedFrom` between an input row and the row
    `transform` returns for it.

A data frame is a header, `seq<string>`, together with a `seq<Row>`.

- A `Row` holds two groups of cells:
  - the raw cells the code reads: Instrument Name, RIC, Trade Date,
    Expiration Date, Term, Period and Contributor Short Name;
  - the cells it writes: contract, Base, Moneyness, contract_year,
    contract_month, the two check digits, compare, month_code and symbol.
- Every other raw column, the float fields among them, is a `Cell` (null, a
  number or a text) carried unchanged. Its contents carry no meaning here.
- A null cell (NaN/NaT) is `None`.
- Each stage reassigns a local copy of the table. The caller's table is a
  value, so "do not mutate the input" holds for free.

Where the code and the numbered instructions in its own comments disagree, the model
follows the code:

- Expired rows are only reported, not dropped (`main.py:149-153`).
- A row whose Term and Period are both null keeps a null contract.
- A RIC that cannot be parsed ends `transform`, which returns `None`
  (`main.py:166-171`).
- The symbol is only `"FUTURE_VOL_"` followed by the Contributor Short Name
  (`main.py:210`).

Null and type rules:

- A null RIC makes `ric.split` raise `AttributeError` inside the `try`. The
  model treats it like a code too short to split.
- A null Expiration Date gives a null year (NaN). NaN compares unequal to
  every digit and stays NaN through `+= 1`.

## Model

| member | source | states |
|---|---|---|
| Ric.Split | main.py:64 | `str.split` on one character: at least one part, no part holds the separator, and the first part is a prefix of the string |
| Ric.JoinSplit | main.py:64 | joining the parts of a split with the separator gives back the string (split's inverse) |
| Ric.Truncate | main.py:64 | `split("N")[0]` is a prefix of the code and holds no 'N' |
| Ric.TruncateIsPrefixBeforeFirstN | main.py:64 | `split("N")[0]` is a prefix of the code without 'N', followed in the code by an 'N' when shorter than it |
| Ric.TruncateAt | main.py:64 | the code `p + "N" + q` truncates to `p` when `p` has no 'N'; `p` alone truncates to itself |
| Ric.IsAlpha | main.py:65 | `str.isalpha()` on one character, restricted to the ASCII letters a-z and A-Z |
| Ric.Parse | main.py:63-71 | fails (the `IndexError` of `ric[2]`) exactly when the truncated code has at most two characters; otherwise base + moneyness is the truncated code, and the base has 3 characters when the third is a letter, else 2 |
| Ric.ParsedPartsHoldNoN | main.py:63-71 | neither part holds an 'N', and base + moneyness is a prefix of the code |
| Ric.ParseRoundTrip | main.py:63-71 | a code built as base + moneyness + "N" + suffix, with a base the rule recognises, parses back into that base and moneyness |
| Ric.ParseExamples | main.py:165-173 | "1BO50Nc1=R" gives ("1BO", "50") and "1BO100Nc1O=R" gives ("1BO", "100") |
| Ric.ParseBase | main.py:73-75 | defined exactly when `parse` is; a 2- or 3-character prefix of the truncated code, equal to `parse`'s first component |
| Ric.ParseMoneyness | main.py:77-79 | defined exactly when `parse` is; `parse_base` followed by `parse_m` is the truncated code |
| Tables.Zip | main.py:27 | a key is in the dictionary comprehension over `zip` exactly when it occurs at a position both inputs reach |
| Tables.ZipAt | main.py:27 | with distinct keys, the i-th key maps to the i-th value |
| Tables.MonthNameToCodeAt | main.py:8-27 | `MONTH_NAME_TO_CODE` maps the i-th month name to the i-th month code |
| Tables.MonthCode | main.py:202 | `.map(MONTH_NAME_TO_CODE)`: a code exactly for the twelve month names (null otherwise), and the i-th name gets the i-th code |
| Tables.MonthCodeTable | main.py:8-27 | JAN→F, FEB→G, MAR→H, APR→J, MAY→K, JUN→M, JUL→N, AUG→Q, SEP→U, OCT→V, NOV→X, DEC→Z |
| Tables.MonthCodeInjective | main.py:8-27 | two month names with the same code are the same name |
| Tables.FieldsMapEntries | main.py:29-41 | the rename dictionary sends the i-th of the eleven listed labels to the i-th listed target and has no other key; its targets are distinct, and no target is a key |
| Tables.FieldsMapInjective | main.py:29-41 | distinct keys rename to distinct names, and no renamed name is itself a key |
| Tables.FloatFieldsAreRenameTargets | main.py:29-54 | the ten float fields are distinct, each is a rename target, and "date" is the one target that is not a float field |
| Tables.RenameColumn | main.py:205 | a label in `FIELDS_MAP` becomes its (different) target; any other label is kept |
| Tables.RenameIdempotent | main.py:205 | renaming a renamed label changes nothing |
| Tables.RenameColumns | main.py:205 | the header keeps its length, and each label is renamed in place |
| Tables.RenameColumnsDistinct | main.py:205 | renaming keeps distinct labels distinct, unless a label it leaves alone already carries a target name |
| Contracts.ContractLabel | main.py:133-134 | the Term when present, else the Period; null exactly when both are null |
| Contracts.DigitValue | main.py:192 | `int(ch)` of a decimal digit is the digit's position in "0123456789" |
| Contracts.CheckDigitOfYear | main.py:190 | `year % 10` with Python's floor semantics: a digit 0-9 congruent to the year modulo 10 |
| Contracts.IsDigit | main.py:192 | the characters `int(ch)` accepts: the ASCII decimal digits |
| Contracts.WellFormedPeriod | main.py:186-192 | the Period cells on which `x[:3]`, `x[-1]` and `int(x[-1])` all succeed: non-empty, ending in a decimal digit |
| Contracts.CheckDigitOfPeriod | main.py:191 | `x[-1]` of a well-formed Period: its last character, a decimal digit |
| Contracts.ContractYear | main.py:183-198 | null exactly when the expiration date is; otherwise the expiration year, plus one exactly when its last digit differs from Period's last digit |
| Contracts.ContractYearRestoresDigit | main.py:190-198 | the derived year ends in Period's digit exactly when the expiration year, or the year after it, does |
| Contracts.ContractYearExamples | main.py:179-182 | a January contract labelled 1 that expires in 2020 belongs to 2021; labelled 0 it stays in 2020 |
| Contracts.ContractMonth | main.py:186 | `x[:3]`: a prefix of Period of length three, or all of Period when it is shorter |
| Selection.Filter | main.py:142 | `df[mask]` keeps only rows that pass the mask, and never more rows than it had |
| Selection.Kept | main.py:142 | the positions of the kept rows are in range and pass the mask |
| Selection.FilterSelectsKept | main.py:142 | the j-th kept row is the input row at the j-th kept position |
| Selection.KeptOrderedAndComplete | main.py:142 | kept positions are strictly increasing, and every row that passes the mask is kept |
| Selection.FilterConcat | main.py:142 | a mask on concatenated tables is the concatenation of the masked tables |
| Selection.FilterFilter | main.py:142-161 | dropping by one mask and then another is dropping by their conjunction |
| Selection.KeptSameMask | main.py:142-161 | two tables whose rows agree on the mask keep the same positions |
| Selection.FilterKeepsWitnesses | main.py:149-161 | a check made after a drop sees a row exactly when the table before the drop has one (for checks the drop does not discard) |
| Pipeline.Before | main.py:149 | `<` on dates: lexicographic on (year, month, day) |
| Pipeline.BeforeIsStrictTotalOrder | main.py:149 | date comparison is irreflexive, transitive, asymmetric and total on distinct dates |
| Pipeline.HasTradeDate | main.py:138-142 | the rows kept by `df[~null_mask]`: a Trade Date is present |
| Pipeline.HasName | main.py:161 | the rows kept by `dropna(subset=['Instrument Name'])`: a name is present |
| Pipeline.Survives | main.py:138-161 | the rows kept by both drops |
| Pipeline.Expired | main.py:149 | `Expiration Date < Trade Date`; a null date (NaT) compares false, so a row with a missing date is never expired |
| Pipeline.AnyNullTradeDate | main.py:138-140 | `null_mask.any()`: some row has a null Trade Date |
| Pipeline.AnyExpired | main.py:149-153 | `not expired_instruments.empty`: some row is expired |
| Pipeline.AnyNullName | main.py:156-158 | `not null_contracts.empty`: some row has a null Instrument Name |
| Pipeline.AnyDatedNullName | main.py:138-158 | some caller row has a Trade Date but no Instrument Name, which is what the null-name check sees after the first drop |
| Pipeline.RicParses | main.py:166-171 | both applies succeed on the row: the RIC is present and its truncation is longer than two characters |
| Pipeline.PeriodReadable | main.py:186-192 | the Period is present and well formed |
| Pipeline.YearOf | main.py:184 | `.dt.year`: the year of the expiration date; NaT gives NaN |
| Pipeline.YearDigit | main.py:190 | `x % 10` on a year cell: null exactly when the year is; otherwise a digit 0-9 congruent to the year modulo 10 |
| Pipeline.DigitsDiffer | main.py:192 | `check_digit_contract_year != int(check_digit_Period)`: true when the year digit is NaN, else when the digits differ |
| Pipeline.Increment | main.py:198 | `+= 1` on a year cell: one more than the year; NaN stays NaN |
| Pipeline.MonthCodeOf | main.py:202 | `.map(MONTH_NAME_TO_CODE)` on a month cell: a code exactly when the month is present and one of the twelve names, and then the code `MonthCode` gives that name |
| Pipeline.Symbol | main.py:210 | null exactly when the Contributor Short Name is; otherwise "FUTURE_VOL_" followed by that name |
| Pipeline.AddColumn | main.py:133-210 | assigning a column keeps every label in place and adds a new label only at the end |
| Pipeline.AddColumns | main.py:133-202 | assigning several columns keeps the header as a prefix, every assigned label is present, no other label appears, and at most one label is added per assignment |
| Pipeline.OutputColumns | main.py:133-210 | the header `transform` returns: the derived labels added, then the rename, then `symbol` |
| Pipeline.RenamedAddedColumns | main.py:133-205 | after the assignments and the rename, the caller's renamed header is a prefix, every assigned label is present renamed, and every label is a renamed header label or a renamed assigned one |
| Pipeline.DerivedColumnsNotRenamed | main.py:29-41 | no column `transform` writes is one `FIELDS_MAP` renames, so renaming leaves the derived labels as they are |
| Pipeline.OutputColumnsCover | main.py:133-210 | the returned header starts with the caller's header, renamed in place, holds every derived label and `symbol`, and holds no other label |
| Pipeline.RowDerivedFrom | main.py:133-210 | the row `transform` returns for a caller row: raw cells unchanged, the contract label, the RIC split, the contract columns and the symbol each as its rule gives them |
| Pipeline.Header | main.py:133-210 | the header after the assignments, the rename and the symbol is `OutputColumns(header)` |
| Pipeline.WithContract | main.py:133-134 | writes the contract label and no other cell |
| Pipeline.WithContracts | main.py:133-134 | writes the contract label on every row, and the row count is unchanged |
| Pipeline.Clean | main.py:133-161 | the result is the caller's rows with both a Trade Date and an Instrument Name, in order, each with its contract label; each warning is raised exactly when a matching row exists |
| Pipeline.DropsKeepSurvivors | main.py:142-161 | the two drops keep exactly the rows at the surviving positions |
| Pipeline.ExpiredWarning | main.py:149-153 | the expired check, made after the first drop, fires exactly when the caller's table has an expired row |
| Pipeline.NullNameWarning | main.py:156-158 | the null-name check, made after the first drop, fires exactly when a row with a Trade Date has no name |
| Pipeline.RowSplit | main.py:167-168 | the row after both applies: Base and Moneyness hold `parse`'s two parts, and no other cell changes |
| Pipeline.ParseRics | main.py:166-171 | fails exactly when some row's RIC cannot be parsed; otherwise each row gains `parse`'s two parts and nothing else changes |
| Pipeline.ContractColumnsOf | main.py:183-202 | what the contract-year, contract-month, check-digit, compare and month-code lines write into a row, and that they write nothing else |
| Pipeline.DeriveContractColumns | main.py:183-202 | on a non-empty table (the row-wise `apply` at line 192 raises on an empty one), each row gets its contract year, month, check digits, comparison and month code, as `ContractColumnsOf` states, and nothing else changes |
| Pipeline.ContractStages | main.py:183-202 | applying the seven column assignments in the code's order to one row gives `ContractColumnsOf` |
| Pipeline.WithSymbol | main.py:210 | writes the symbol and no other cell |
| Pipeline.StagesDeriveRow | main.py:133-210 | the stages, applied one row at a time, give the row `RowDerivedFrom` describes |
| Pipeline.FailureComesFromSurvivor | main.py:166-171 | a kept row whose RIC fails comes from a surviving caller row whose RIC fails |
| Pipeline.SurvivorsParse | main.py:166-171 | when every kept RIC parses, every surviving caller row parses, and each split row keeps its source row's Period |
| Pipeline.RowsDerived | main.py:133-210 | every row of the result is derived from the surviving caller row at the same position |
| Pipeline.TransformRows | main.py:133-210 | for a table with at least one surviving row, returns the warnings, no table exactly when a surviving RIC fails, and otherwise one row per survivor in order, each derived from its source row |
| Pipeline.Transform | main.py:85-216 | as `TransformRows`, with the returned header equal to `OutputColumns` of the caller's header |

## Left out

- `process`: reading and writing CSV files and timing the run are I/O and clocks.
- `print`: warnings become the three flags of `Warnings`. The printed text, and the `print(e)` of the caught exception, are not modelled.
- `pd.to_datetime`: dates arrive already parsed as (year, month, day). Parsing of date strings is outside the model, and so is the time of day.
- `instruments_`: `transform` never reads its second table, so there is no merge and no full symbol.
- Float cells are carried unchanged and nothing is proved about their values.
- Ric.IsAlpha: `str.isalpha` also accepts non-ASCII letters; the model only knows the ASCII ones.
- Contracts.IsDigit: `int` also accepts non-ASCII decimal digits; the model only knows the ASCII ones.
- Periods that make the code crash: a null Period, an empty one, or one whose last character is not a digit. These crash outside the `try`, so `Transform` requires, as its precondition, that they do not occur once every RIC parses.
- A missing column (`KeyError`) is not modelled: every column the code reads is a field of `Row`.
- pandas details:
  - copy warnings;
  - dtypes (a year column that holds NaN becomes float);
- `MONTH_NUMS` and the commented-out regular-expression parser: neither is used by the code.
- Pipeline.ParseRics: `parse_base` and `parse_m` are two `apply` passes. They fail on the same rows, so one pass models both. The model returns at the first failure, and the failing row is not otherwise reported.
- Pipeline.Transform: runtime requirements (below one second) are not modelled.
- Pipeline.DeriveContractColumns: on an empty table, `df.apply(..., axis=1)` at `main.py:192` returns a frame, and assigning it to `compare` raises `ValueError`; the model requires a non-empty table instead of returning one.
- Pipeline.TransformRows: when no row survives the two drops, the code raises that `ValueError` outside the `try`; the model requires a surviving row instead of returning an empty table.
- Pipeline.Transform: likewise, with no surviving row (an empty caller table among them) the code raises, and the model requires a surviving row.

/**
 * The per-row contract rules of `transform`: the contract label
 * (`Term`, else `Period`), the contract month (`Period[:3]`) and the contract
 * year (the expiration year, plus one when its last digit differs from the
 * decade digit that ends `Period`).
 */
module Contracts {
  import opened Wrappers

  /** `df['Term'].fillna(df['Period'])`. */
  function ContractLabel(term: Option<string>, period: Option<string>): (c: Option<string>)
    ensures term.Some? ==> c == term
    ensures term.None? ==> c == period
    ensures c.None? <==> term.None? && period.None?
  {
    if term.Some? then term else period
  }

  /** An ASCII decimal digit; `int(ch)` succeeds on exactly these. */
  predicate IsDigit(c: char)
  {
    '0' <= c <= '9'
  }

  /** `int(ch)` for one decimal digit. */
  function DigitValue(c: char): (d: int)
    requires IsDigit(c)
    ensures 0 <= d <= 9
    ensures c == "0123456789"[d]
  {
    c as int - '0' as int
  }

  /** The last character of a period label is its decade digit, and the code reads it as such. */
  predicate WellFormedPeriod(period: string)
  {
    |period| > 0 && IsDigit(period[|period| - 1])
  }

  /** `period[-1]`. */
  function CheckDigitOfPeriod(period: string): (c: char)
    requires WellFormedPeriod(period)
    ensures IsDigit(c) && c == period[|period| - 1]
  {
    period[|period| - 1]
  }

  /**
   * `year % 10`. Python's `%` rounds the quotient down; for the positive
   * divisor 10 that agrees with Dafny's Euclidean `%`, negative years included.
   */
  function CheckDigitOfYear(year: int): (d: int)
    ensures 0 <= d <= 9
    ensures (year - d) % 10 == 0
  {
    year % 10
  }

  /**
   * The reconciled contract year: the year of the expiration date, plus one
   * when its last digit is not the period's decade digit. A missing
   * expiration date (NaT) gives a missing year (NaN), which `+ 1` leaves NaN.
   */
  function ContractYear(expirationYear: Option<int>, period: string): (r: Option<int>)
    requires WellFormedPeriod(period)
    ensures r.Some? <==> expirationYear.Some?
    ensures r.Some? ==> r.value == expirationYear.value || r.value == expirationYear.value + 1
    ensures r.Some? ==>
      (r.value == expirationYear.value <==> expirationYear.value % 10 == DigitValue(period[|period| - 1]))
  {
    match expirationYear
    case None => None
    case Some(year) =>
      if CheckDigitOfYear(year) != DigitValue(CheckDigitOfPeriod(period)) then Some(year + 1) else Some(year)
  }

  /**
   * The year rule restores the period's decade digit exactly when the
   * expiration year is the contract year or the year just before it; there is
   * one increment and no further correction.
   */
  lemma ContractYearRestoresDigit(year: int, period: string)
    requires WellFormedPeriod(period)
    ensures ContractYear(Some(year), period).value % 10 == DigitValue(period[|period| - 1])
        <==> (year % 10 == DigitValue(period[|period| - 1]) || (year + 1) % 10 == DigitValue(period[|period| - 1]))
  {
  }

  /** A January contract labelled with decade digit 1 that expires in 2020 belongs to 2021; one labelled 0 stays in 2020. */
  lemma ContractYearExamples()
    ensures ContractYear(Some(2020), "JAN1") == Some(2021)
    ensures ContractYear(Some(2020), "JAN0") == Some(2020)
    ensures ContractYear(Some(2019), "JAN1") == Some(2020)
  {
  }

  /** `period[:3]`: the first three characters, or the whole label when it is shorter. */
  function ContractMonth(period: string): (m: string)
    ensures m <= period
    ensures |m| == if |period| < 3 then |period| else 3
  {
    if |period| <= 3 then period else period[..3]
  }
}

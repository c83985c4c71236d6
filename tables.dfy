/**
 * The module-level constants of the normalisation script: the futures month
 * codes, the month abbreviations, the dictionary built by zipping the two, the
 * column-rename dictionary and the list of float fields.
 */
module Tables {
  import opened Wrappers

  const MONTH_CODES: string := "FGHJKMNQUVXZ"

  const MONTH_NAMES: seq<string> :=
    ["JAN", "FEB", "MAR", "APR", "MAY", "JUN", "JUL", "AUG", "SEP", "OCT", "NOV", "DEC"]

  /**
   * `{k: v for k, v in zip(ks, vs)}`: zip stops at the shorter input and a
   * later key overwrites an earlier one.
   */
  function Zip(ks: seq<string>, vs: seq<char>): (m: map<string, char>)
    ensures forall k :: k in m <==> exists i :: 0 <= i < |ks| && i < |vs| && ks[i] == k
    decreases |ks|
  {
    var n := if |ks| < |vs| then |ks| else |vs|;
    if n == 0 then map[]
    else Zip(ks[..n - 1], vs[..n - 1])[ks[n - 1] := vs[n - 1]]
  }

  /** With distinct keys, the zipped dictionary sends the i-th key to the i-th value. */
  lemma {:induction false} ZipAt(ks: seq<string>, vs: seq<char>, i: nat)
    requires forall a, b :: 0 <= a < b < |ks| ==> ks[a] != ks[b]
    requires i < |ks| && i < |vs|
    ensures ks[i] in Zip(ks, vs) && Zip(ks, vs)[ks[i]] == vs[i]
    decreases |ks|
  {
    var n := if |ks| < |vs| then |ks| else |vs|;
    if i < n - 1 {
      ZipAt(ks[..n - 1], vs[..n - 1], i);
    }
  }

  /** `MONTH_NAME_TO_CODE`. */
  const MONTH_NAME_TO_CODE: map<string, char> := Zip(MONTH_NAMES, MONTH_CODES)

  /**
   * `df['contract_month'].map(MONTH_NAME_TO_CODE)`: a key outside the
   * dictionary gives a null (NaN) cell.
   */
  function MonthCode(month: string): (c: Option<char>)
    ensures c.Some? <==> month in MONTH_NAMES
    ensures forall i :: 0 <= i < |MONTH_NAMES| && MONTH_NAMES[i] == month ==> c == Some(MONTH_CODES[i])
  {
    MonthNameToCodeAt();
    if month in MONTH_NAME_TO_CODE then Some(MONTH_NAME_TO_CODE[month]) else None
  }

  /** The zipped month dictionary sends the i-th month name to the i-th code. */
  lemma MonthNameToCodeAt()
    ensures forall i :: 0 <= i < |MONTH_NAMES| ==>
      MONTH_NAMES[i] in MONTH_NAME_TO_CODE && MONTH_NAME_TO_CODE[MONTH_NAMES[i]] == MONTH_CODES[i]
  {
    forall i | 0 <= i < |MONTH_NAMES|
      ensures MONTH_NAMES[i] in MONTH_NAME_TO_CODE && MONTH_NAME_TO_CODE[MONTH_NAMES[i]] == MONTH_CODES[i]
    {
      ZipAt(MONTH_NAMES, MONTH_CODES, i);
    }
  }

  /** The month codes of every month name are the ones of the futures convention. */
  lemma MonthCodeTable()
    ensures MonthCode("JAN") == Some('F') && MonthCode("FEB") == Some('G')
    ensures MonthCode("MAR") == Some('H') && MonthCode("APR") == Some('J')
    ensures MonthCode("MAY") == Some('K') && MonthCode("JUN") == Some('M')
    ensures MonthCode("JUL") == Some('N') && MonthCode("AUG") == Some('Q')
    ensures MonthCode("SEP") == Some('U') && MonthCode("OCT") == Some('V')
    ensures MonthCode("NOV") == Some('X') && MonthCode("DEC") == Some('Z')
  {
    assert MONTH_NAMES[0] == "JAN" && MONTH_NAMES[1] == "FEB" && MONTH_NAMES[2] == "MAR";
    assert MONTH_NAMES[3] == "APR" && MONTH_NAMES[4] == "MAY" && MONTH_NAMES[5] == "JUN";
    assert MONTH_NAMES[6] == "JUL" && MONTH_NAMES[7] == "AUG" && MONTH_NAMES[8] == "SEP";
    assert MONTH_NAMES[9] == "OCT" && MONTH_NAMES[10] == "NOV" && MONTH_NAMES[11] == "DEC";
  }

  /** Two month names never share a code. */
  lemma MonthCodeInjective(a: string, b: string)
    requires MonthCode(a).Some? && MonthCode(a) == MonthCode(b)
    ensures a == b
  {
    var i :| 0 <= i < |MONTH_NAMES| && MONTH_NAMES[i] == a;
    var j :| 0 <= j < |MONTH_NAMES| && MONTH_NAMES[j] == b;
    assert MONTH_CODES[i] == MONTH_CODES[j];
    MonthCodesDistinct();
  }

  lemma MonthCodesDistinct()
    ensures forall i, j :: 0 <= i < j < |MONTH_CODES| ==> MONTH_CODES[i] != MONTH_CODES[j]
  {
  }

  /** `FIELDS_MAP`: raw column label to output field name. */
  const FIELDS_MAP: map<string, string> := map[
    "Trade Date" := "date",
    "Risk Free Interest Rate" := "RATE",
    "Open Implied Volatility" := "PRICE_OPEN",
    "Last Implied Volatility" := "PRICE_LAST",
    "High Implied Volatility" := "PRICE_HIGH",
    "Previous Close Price" := "PRICE_CLOSE_PREV",
    "Close Implied Volatility" := "IMPLIEDVOL_BLACK",
    "Strike Price" := "STRIKE",
    "Option Premium" := "PREMIUM",
    "General Value6" := "UNDL_PRICE_SETTLE",
    "General Value7" := "UNDL_PRICE_LAST"
  ]

  /** `FLOAT_FIELDS`, in declaration order. */
  const FLOAT_FIELDS: seq<string> := [
    "PRICE_OPEN", "PRICE_LAST", "PRICE_HIGH", "PRICE_CLOSE_PREV", "IMPLIEDVOL_BLACK",
    "PREMIUM", "RATE", "STRIKE", "UNDL_PRICE_SETTLE", "UNDL_PRICE_LAST"
  ]

  /** The keys of `FIELDS_MAP`, in declaration order. */
  const FIELDS_MAP_KEYS: seq<string> := [
    "Trade Date", "Risk Free Interest Rate", "Open Implied Volatility",
    "Last Implied Volatility", "High Implied Volatility", "Previous Close Price",
    "Close Implied Volatility", "Strike Price", "Option Premium",
    "General Value6", "General Value7"
  ]

  /** The targets of `FIELDS_MAP`, in declaration order. */
  const FIELDS_MAP_TARGETS: seq<string> := [
    "date", "RATE", "PRICE_OPEN", "PRICE_LAST", "PRICE_HIGH", "PRICE_CLOSE_PREV",
    "IMPLIEDVOL_BLACK", "STRIKE", "PREMIUM", "UNDL_PRICE_SETTLE", "UNDL_PRICE_LAST"
  ]

  /**
   * The rename dictionary sends the i-th listed label to the i-th listed
   * target and has no other key; its targets are distinct and none is a key.
   */
  lemma FieldsMapEntries()
    ensures |FIELDS_MAP_KEYS| == |FIELDS_MAP_TARGETS| == 11
    ensures forall i :: 0 <= i < |FIELDS_MAP_KEYS| ==>
      FIELDS_MAP_KEYS[i] in FIELDS_MAP && FIELDS_MAP[FIELDS_MAP_KEYS[i]] == FIELDS_MAP_TARGETS[i]
    ensures forall k :: k in FIELDS_MAP ==> k in FIELDS_MAP_KEYS
    ensures forall a, b :: 0 <= a < b < |FIELDS_MAP_TARGETS| ==> FIELDS_MAP_TARGETS[a] != FIELDS_MAP_TARGETS[b]
    ensures forall i :: 0 <= i < |FIELDS_MAP_TARGETS| ==> FIELDS_MAP_TARGETS[i] !in FIELDS_MAP
  {
    FieldTargetsDistinct();
    forall i | 0 <= i < |FIELDS_MAP_TARGETS|
      ensures FIELDS_MAP_TARGETS[i] !in FIELDS_MAP
    {
    }
  }

  lemma FieldTargetsDistinct()
    ensures forall a, b :: 0 <= a < b < |FIELDS_MAP_TARGETS| ==> FIELDS_MAP_TARGETS[a] != FIELDS_MAP_TARGETS[b]
  {
  }

  /** The rename dictionary sends distinct labels to distinct names, none of them a label it renames. */
  lemma FieldsMapInjective()
    ensures forall a, b :: a in FIELDS_MAP && b in FIELDS_MAP && FIELDS_MAP[a] == FIELDS_MAP[b] ==> a == b
    ensures forall a :: a in FIELDS_MAP ==> FIELDS_MAP[a] !in FIELDS_MAP
  {
    FieldsMapEntries();
    forall a, b | a in FIELDS_MAP && b in FIELDS_MAP && FIELDS_MAP[a] == FIELDS_MAP[b]
      ensures a == b
    {
      var i :| 0 <= i < |FIELDS_MAP_KEYS| && FIELDS_MAP_KEYS[i] == a;
      var j :| 0 <= j < |FIELDS_MAP_KEYS| && FIELDS_MAP_KEYS[j] == b;
    }
    forall a | a in FIELDS_MAP
      ensures FIELDS_MAP[a] !in FIELDS_MAP
    {
      var i :| 0 <= i < |FIELDS_MAP_KEYS| && FIELDS_MAP_KEYS[i] == a;
    }
  }

  /** Each of the ten float fields is a distinct target of the rename dictionary; "date" is a target too. */
  lemma FloatFieldsAreRenameTargets()
    ensures |FLOAT_FIELDS| == 10
    ensures forall a, b :: 0 <= a < b < |FLOAT_FIELDS| ==> FLOAT_FIELDS[a] != FLOAT_FIELDS[b]
    ensures forall f :: f in FLOAT_FIELDS ==> f in FIELDS_MAP.Values
    ensures "date" in FIELDS_MAP.Values && "date" !in FLOAT_FIELDS
  {
    var sources := ["Open Implied Volatility", "Last Implied Volatility", "High Implied Volatility",
                    "Previous Close Price", "Close Implied Volatility", "Option Premium",
                    "Risk Free Interest Rate", "Strike Price", "General Value6", "General Value7"];
    forall i | 0 <= i < |FLOAT_FIELDS|
      ensures FLOAT_FIELDS[i] in FIELDS_MAP.Values
    {
      assert sources[i] in FIELDS_MAP && FIELDS_MAP[sources[i]] == FLOAT_FIELDS[i];
    }
    assert FIELDS_MAP["Trade Date"] == "date";
  }

  /** `df.rename(columns=FIELDS_MAP)` on one column label. */
  function RenameColumn(column: string): (r: string)
    ensures column in FIELDS_MAP ==> r == FIELDS_MAP[column] && r != column
    ensures column !in FIELDS_MAP ==> r == column
  {
    if column in FIELDS_MAP then FIELDS_MAP[column] else column
  }

  /** Renaming twice is renaming once: no target of the dictionary is itself a key. */
  lemma RenameIdempotent(column: string)
    ensures RenameColumn(RenameColumn(column)) == RenameColumn(column)
  {
    FieldsMapInjective();
  }

  /** `df.rename(columns=FIELDS_MAP)` on the header, position by position. */
  function RenameColumns(header: seq<string>): (r: seq<string>)
    ensures |r| == |header|
    ensures forall i :: 0 <= i < |header| ==> r[i] == RenameColumn(header[i])
  {
    seq(|header|, i requires 0 <= i < |header| => RenameColumn(header[i]))
  }

  /**
   * Renaming keeps the column labels distinct, provided no column that the
   * dictionary leaves alone is already one of its target names.
   */
  lemma RenameColumnsDistinct(header: seq<string>)
    requires forall a, b :: 0 <= a < b < |header| ==> header[a] != header[b]
    requires forall i :: 0 <= i < |header| && header[i] !in FIELDS_MAP ==> header[i] !in FIELDS_MAP.Values
    ensures forall a, b :: 0 <= a < b < |header| ==> RenameColumns(header)[a] != RenameColumns(header)[b]
  {
    FieldsMapInjective();
    var r := RenameColumns(header);
    forall a, b | 0 <= a < b < |header|
      ensures r[a] != r[b]
    {
      if header[a] in FIELDS_MAP && header[b] !in FIELDS_MAP {
        assert r[a] in FIELDS_MAP.Values;
      } else if header[a] !in FIELDS_MAP && header[b] in FIELDS_MAP {
        assert r[b] in FIELDS_MAP.Values;
      }
    }
  }
}

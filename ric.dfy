/**
 * Parsing of a Reuters Instrument Code (RIC) into its base and its moneyness,
 * as `parse`, `parse_base` and `parse_m` do it: cut the code before the first
 * 'N', then take a three-character base when the third character is a letter
 * and a two-character base otherwise; the rest is the moneyness.
 */
module Ric {
  import opened Wrappers

  /** Python's `str.split(sep)` for a one-character separator. */
  function Split(s: string, sep: char): (parts: seq<string>)
    ensures |parts| >= 1
    ensures forall i :: 0 <= i < |parts| ==> sep !in parts[i]
    ensures parts[0] <= s
    decreases |s|
  {
    if s == [] then [[]]
    else
      var rest := Split(s[1..], sep);
      if s[0] == sep then [[]] + rest
      else [[s[0]] + rest[0]] + rest[1..]
  }

  /** Python's `sep.join(parts)`, the inverse of `Split`. */
  function Join(parts: seq<string>, sep: char): (s: string)
    requires |parts| >= 1
    decreases |parts|
  {
    if |parts| == 1 then parts[0] else parts[0] + [sep] + Join(parts[1..], sep)
  }

  /** Joining the pieces of a split with the separator gives back the string. */
  lemma {:induction false} JoinSplit(s: string, sep: char)
    ensures Join(Split(s, sep), sep) == s
    decreases |s|
  {
    if s != [] {
      var rest := Split(s[1..], sep);
      JoinSplit(s[1..], sep);
      if s[0] == sep {
        assert ([[]] + rest)[1..] == rest;
      } else {
        var parts := [[s[0]] + rest[0]] + rest[1..];
        if |rest| > 1 {
          assert parts[1..] == rest[1..];
        }
      }
    }
  }

  /** `ric.split("N")[0]`: the part of the code before its first 'N'. */
  function Truncate(ric: string): (t: string)
    ensures t <= ric && 'N' !in t
  {
    Split(ric, 'N')[0]
  }

  /** The truncated code is the longest prefix of the code that holds no 'N'. */
  lemma {:induction false} TruncateIsPrefixBeforeFirstN(ric: string)
    ensures Truncate(ric) <= ric
    ensures 'N' !in Truncate(ric)
    ensures |Truncate(ric)| < |ric| ==> ric[|Truncate(ric)|] == 'N'
    decreases |ric|
  {
    if ric != [] && ric[0] != 'N' {
      TruncateIsPrefixBeforeFirstN(ric[1..]);
      assert Truncate(ric) == [ric[0]] + Truncate(ric[1..]);
    }
  }

  /** Truncating `p + "N" + q`, where `p` holds no 'N', gives `p`; so does truncating `p` itself. */
  lemma TruncateAt(p: string, q: string)
    requires 'N' !in p
    ensures Truncate(p + ['N'] + q) == p
    ensures Truncate(p) == p
  {
    var s := p + ['N'] + q;
    TruncateIsPrefixBeforeFirstN(s);
    TruncateIsPrefixBeforeFirstN(p);
    var t := Truncate(s);
    assert s[|p|] == 'N';
    assert t == s[..|t|];
  }

  /** `str.isalpha()` on one character, restricted to ASCII letters. */
  predicate IsAlpha(c: char)
  {
    ('a' <= c <= 'z') || ('A' <= c <= 'Z')
  }

  /**
   * `parse(ric)`: `None` stands for the `IndexError` raised by `ric[2]` when
   * the truncated code has at most two characters.
   */
  function Parse(ric: string): (r: Option<(string, string)>)
    ensures r.None? <==> |Truncate(ric)| <= 2
    ensures r.Some? ==> r.value.0 + r.value.1 == Truncate(ric)
    ensures r.Some? ==> |r.value.0| == if IsAlpha(Truncate(ric)[2]) then 3 else 2
  {
    var t := Truncate(ric);
    if |t| <= 2 then None
    else if IsAlpha(t[2]) then Some((t[..3], t[3..]))
    else Some((t[..2], t[2..]))
  }

  /** Neither the base nor the moneyness holds an 'N', and both come from the code in order. */
  lemma ParsedPartsHoldNoN(ric: string)
    requires Parse(ric).Some?
    ensures 'N' !in Parse(ric).value.0 && 'N' !in Parse(ric).value.1
    ensures Parse(ric).value.0 + Parse(ric).value.1 <= ric
  {
    TruncateIsPrefixBeforeFirstN(ric);
  }

  /**
   * Round trip: a code built as `base + moneyness + "N" + suffix`, with a base
   * of three characters whose last is a letter, or of two characters followed
   * by a moneyness that starts with a non-letter, parses back into that base
   * and that moneyness.
   */
  lemma ParseRoundTrip(base: string, moneyness: string, suffix: string)
    requires 'N' !in base && 'N' !in moneyness
    requires (|base| == 3 && IsAlpha(base[2]))
          || (|base| == 2 && |moneyness| > 0 && !IsAlpha(moneyness[0]))
    ensures Parse(base + moneyness + ['N'] + suffix) == Some((base, moneyness))
    ensures Parse(base + moneyness) == Some((base, moneyness))
  {
    var p := base + moneyness;
    TruncateAt(p, suffix);
    assert p[..|base|] == base && p[|base|..] == moneyness;
    assert p[2] == if |base| == 3 then base[2] else moneyness[0];
  }

  /** The two codes the comments in `transform` give as examples. */
  lemma ParseExamples()
    ensures Parse("1BO50Nc1=R") == Some(("1BO", "50"))
    ensures Parse("1BO100Nc1O=R") == Some(("1BO", "100"))
  {
    ParseRoundTrip("1BO", "50", "c1=R");
    assert "1BO" + "50" + ['N'] + "c1=R" == "1BO50Nc1=R";
    ParseRoundTrip("1BO", "100", "c1O=R");
    assert "1BO" + "100" + ['N'] + "c1O=R" == "1BO100Nc1O=R";
  }

  /** `parse_base(ric)`: the first component of `parse`. */
  function ParseBase(ric: string): (b: Option<string>)
    ensures b.Some? <==> |Truncate(ric)| > 2
    ensures b.Some? ==> b.value <= Truncate(ric) && 2 <= |b.value| <= 3
    ensures b.Some? ==> b == Some(Parse(ric).value.0)
  {
    match Parse(ric)
    case None => None
    case Some((base, _)) => Some(base)
  }

  /** `parse_m(ric)`: the second component of `parse`. */
  function ParseMoneyness(ric: string): (m: Option<string>)
    ensures m.Some? <==> |Truncate(ric)| > 2
    ensures m.Some? ==> ParseBase(ric).value + m.value == Truncate(ric)
  {
    match Parse(ric)
    case None => None
    case Some((_, moneyness)) => Some(moneyness)
  }
}

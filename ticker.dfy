/** `identificar_tipo_opcao`: the kind of a B3 option read off its ticker. */
module Ticker {
  import opened Strings
  import opened Cells
  import opened Months

  /** The `Tipo` column: 'Call', 'Put' or 'N/D'. */
  datatype OptionKind = Call | Put | Unknown

  /** A non-text cell or a text shorter than five characters is 'N/D';
      otherwise the upper-cased fifth character decides: A to L is a call,
      M to X a put, anything else 'N/D'. */
  function Classify(c: Cell): (k: OptionKind)
    ensures !c.Text? || |c.s| < 5 ==> k == Unknown
    ensures c.Text? && |c.s| >= 5 ==>
      (k == Call <==> 'A' <= UpperChar(c.s[4]) <= 'L') &&
      (k == Put <==> 'M' <= UpperChar(c.s[4]) <= 'X')
  {
    if !c.Text? || |c.s| < 5 then Unknown
    else
      var letter := UpperChar(c.s[4]);
      if 'A' <= letter <= 'L' then Call
      else if 'M' <= letter <= 'X' then Put
      else Unknown
  }

  /** The B3 series letter of an option expiring in month `m`: calls run
      from 'A' (January) to 'L' (December), puts from 'M' to 'X'. */
  function SeriesLetter(k: OptionKind, m: Month): char
    requires k != Unknown
  {
    ((if k == Call then 'A' as int else 'M' as int) + Number(m) - 1) as char
  }

  /** A ticker whose fifth character is the series letter of a call or put,
      in either case, is classified as that kind. */
  lemma ClassifySeriesLetter(s: string, k: OptionKind, m: Month)
    requires |s| >= 5 && k != Unknown
    requires UpperChar(s[4]) == SeriesLetter(k, m)
    ensures Classify(Text(s)) == k
  {
  }

  /** The month number a call's or put's fifth character encodes. */
  function ExpiryNumber(s: string): (n: nat)
    requires Classify(Text(s)) != Unknown
    ensures 1 <= n <= 12
  {
    var letter := UpperChar(s[4]);
    if letter <= 'L' then letter as int - 'A' as int + 1 else letter as int - 'M' as int + 1
  }

  /** Every call or put is named by the series letter of the month it expires in. */
  lemma SeriesOfClassified(s: string)
    requires Classify(Text(s)) != Unknown
    ensures UpperChar(s[4]) == SeriesLetter(Classify(Text(s)), OfNumber(ExpiryNumber(s)))
  {
  }

  /** The classification is blind to the case of the ticker. */
  lemma ClassifyUpper(s: string)
    ensures Classify(Text(Upper(s))) == Classify(Text(s))
  {
    if |s| >= 5 {
      assert UpperChar(Upper(s)[4]) == UpperChar(s[4]);
    }
  }

  lemma ClassifyLower(s: string)
    ensures Classify(Text(Lower(s))) == Classify(Text(s))
  {
    if |s| >= 5 {
      assert UpperChar(Lower(s)[4]) == UpperChar(s[4]);
    }
  }

  /** Only the fifth character matters: two tickers that agree on it up to
      case, and are both long enough, have the same kind. */
  lemma ClassifyFifthOnly(s: string, t: string)
    requires |s| >= 5 && |t| >= 5 && UpperChar(s[4]) == UpperChar(t[4])
    ensures Classify(Text(s)) == Classify(Text(t))
  {
  }
}

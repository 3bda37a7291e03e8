/** The twelve Portuguese month names that mark the options blocks. */
module Months {
  import opened Wrappers
  import opened Strings

  datatype Month =
    | Janeiro | Fevereiro | Marco | Abril | Maio | Junho
    | Julho | Agosto | Setembro | Outubro | Novembro | Dezembro

  /** The month's entry in the list of upper-case names the loader compares against. */
  function UpperName(m: Month): string {
    match m
    case Janeiro => "JANEIRO"
    case Fevereiro => "FEVEREIRO"
    case Marco => "MARÇO"
    case Abril => "ABRIL"
    case Maio => "MAIO"
    case Junho => "JUNHO"
    case Julho => "JULHO"
    case Agosto => "AGOSTO"
    case Setembro => "SETEMBRO"
    case Outubro => "OUTUBRO"
    case Novembro => "NOVEMBRO"
    case Dezembro => "DEZEMBRO"
  }

  /** The month's number in the calendar, January being 1. */
  function Number(m: Month): (n: nat)
    ensures 1 <= n <= 12
  {
    match m
    case Janeiro => 1
    case Fevereiro => 2
    case Marco => 3
    case Abril => 4
    case Maio => 5
    case Junho => 6
    case Julho => 7
    case Agosto => 8
    case Setembro => 9
    case Outubro => 10
    case Novembro => 11
    case Dezembro => 12
  }

  /** The month with a given calendar number. */
  function OfNumber(n: nat): (m: Month)
    requires 1 <= n <= 12
    ensures Number(m) == n
  {
    if n == 1 then Janeiro else if n == 2 then Fevereiro else if n == 3 then Marco
    else if n == 4 then Abril else if n == 5 then Maio else if n == 6 then Junho
    else if n == 7 then Julho else if n == 8 then Agosto else if n == 9 then Setembro
    else if n == 10 then Outubro else if n == 11 then Novembro else Dezembro
  }

  /** The label an options row carries in its `Mês` column: the capitalized
      name ("Janeiro", "Março", ...). */
  function Title(m: Month): string {
    Capitalize(UpperName(m))
  }

  /** Membership in the month-name list: which month, if any, `s` names. */
  function MonthNamed(s: string): (r: Option<Month>)
    ensures r.Some? ==> UpperName(r.value) == s
    ensures r.None? ==> forall m :: UpperName(m) != s
  {
    if s == "JANEIRO" then Some(Janeiro)
    else if s == "FEVEREIRO" then Some(Fevereiro)
    else if s == "MARÇO" then Some(Marco)
    else if s == "ABRIL" then Some(Abril)
    else if s == "MAIO" then Some(Maio)
    else if s == "JUNHO" then Some(Junho)
    else if s == "JULHO" then Some(Julho)
    else if s == "AGOSTO" then Some(Agosto)
    else if s == "SETEMBRO" then Some(Setembro)
    else if s == "OUTUBRO" then Some(Outubro)
    else if s == "NOVEMBRO" then Some(Novembro)
    else if s == "DEZEMBRO" then Some(Dezembro)
    else None
  }

  /** The list holds twelve distinct names, so a name determines its month. */
  lemma UpperNameInjective(m: Month, n: Month)
    requires UpperName(m) == UpperName(n)
    ensures m == n
  {
  }

  /** Looking a month's own name up in the list gives that month back. */
  lemma MonthNamedOf(m: Month)
    ensures MonthNamed(UpperName(m)) == Some(m)
  {
    var r := MonthNamed(UpperName(m));
    assert r.Some?;
    UpperNameInjective(r.value, m);
  }

  /** A cell whose upper-case text is a month name is labelled with that
      month's title by `capitalize`, whatever case it was written in. */
  lemma CapitalizedMarker(s: string, m: Month)
    requires Upper(s) == UpperName(m)
    ensures Capitalize(s) == Title(m)
  {
    CapitalizeOfUpper(s);
  }
}

/** The value helpers of the dashboard: the money-text parser
    `limpar_valor_monetario`, the money formatter `formatar_valor_brl`, and
    the quantity coercion `to_numeric(..., errors='coerce').round()`. */
module Money {
  import opened Wrappers
  import opened Strings
  import opened Cells

  /** Index of the first `c` in `s`, or `|s|` when there is none. */
  function IndexOf(s: string, c: char): (i: nat)
    ensures i <= |s|
    ensures i < |s| ==> s[i] == c
    ensures forall k :: 0 <= k < i ==> s[k] != c
  {
    if |s| == 0 then 0 else if s[0] == c then 0 else 1 + IndexOf(s[1..], c)
  }

  predicate NoDigit(s: string) {
    forall i :: 0 <= i < |s| ==> !IsDigit(s[i])
  }

  /** An unsigned decimal numeral: digits, optionally one '.' and more digits,
      with at least one digit in all ("12", "12.", ".5", "12.50"). */
  function ParseUnsigned(u: string): (r: Option<real>)
    ensures r.Some? ==> !NoDigit(u)
  {
    var i := IndexOf(u, '.');
    if i == |u| then
      if |u| > 0 && AllDigits(u) then Some(DigitsValue(u) as real) else None
    else
      var ip, fp := u[..i], u[i + 1..];
      if AllDigits(ip) && AllDigits(fp) && |ip| + |fp| > 0 then
        assert |ip| > 0 ==> u[0] == ip[0];
        assert |ip| == 0 ==> u[i + 1] == fp[0];
        Some(DecimalValue(ip, fp))
      else None
  }

  /** The value of the numeral with integer digits `ip` and fraction digits `fp`. */
  function DecimalValue(ip: string, fp: string): real
    requires AllDigits(ip) && AllDigits(fp)
  {
    DigitsValue(ip) as real + DigitsValue(fp) as real / Pow10(|fp|) as real
  }

  /** Python's `float(t)` on decimal text: surrounding whitespace is ignored,
      an optional sign, then an unsigned numeral. `None` is the `ValueError`. */
  function ParseFloat(t: string): Option<real> {
    var s := Strip(t);
    if |s| > 0 && (s[0] == '+' || s[0] == '-') then
      match ParseUnsigned(s[1..])
      case None => None
      case Some(v) => Some(if s[0] == '-' then -v else v)
    else ParseUnsigned(s)
  }

  /** The rewrites applied to money text before it is parsed: drop every
      "R$", strip, drop every thousands '.', turn the decimal ',' into '.'. */
  function Rewrite(s: string): string {
    ReplaceAll(ReplaceAll(Strip(ReplaceAll(s, "R$", "")), ".", ""), ",", ".")
  }

  /** `limpar_valor_monetario`: a numeric cell is returned unchanged (NaN,
      here `None`, included), a text cell is parsed after `Rewrite` and
      gives 0 when that fails, and any other value gives 0. */
  function CleanMoney(c: Cell): (r: Option<real>)
    ensures c.Num? ==> r == Some(c.x)
    ensures c.Other? ==> r == Some(0.0)
    ensures r.None? <==> c.Blank?
  {
    match c
    case Blank => None
    case Num(x) => Some(x)
    case Other => Some(0.0)
    case Text(s) =>
      match ParseFloat(Rewrite(s))
      case Some(v) => Some(v)
      case None => Some(0.0)
  }

  /** A value that is known not to be NaN, as money. */
  function MoneyOf(c: Cell): real {
    CleanMoney(FillNa(c)).value
  }

  // ---------------------------------------------------------------------
  // Text without digits is worth nothing.

  lemma {:induction false} ReplaceKeepsNoDigit(s: string, pat: string, rep: string)
    requires |pat| > 0 && NoDigit(s) && NoDigit(rep)
    ensures NoDigit(ReplaceAll(s, pat, rep))
  {
    if |s| >= |pat| {
      ReplaceKeepsNoDigit(s[|pat|..], pat, rep);
      ReplaceKeepsNoDigit(s[1..], pat, rep);
    }
  }

  /** A parse succeeds only on text that holds a digit. */
  lemma ParseFloatNeedsDigit(t: string)
    requires NoDigit(t)
    ensures ParseFloat(t).None?
  {
    var s := Strip(t);
    StripChars(t);
    assert NoDigit(s);
    if |s| > 0 {
      assert NoDigit(s[1..]);
    }
  }

  /** Text without a single digit ("garbage", "", "R$ -") is cleaned to 0. */
  lemma CleanMoneyNoDigit(s: string)
    requires NoDigit(s)
    ensures CleanMoney(Text(s)) == Some(0.0)
  {
    ReplaceKeepsNoDigit(s, "R$", "");
    var a := ReplaceAll(s, "R$", "");
    var b := Strip(a);
    StripChars(a);
    ReplaceKeepsNoDigit(b, ".", "");
    ReplaceKeepsNoDigit(ReplaceAll(b, ".", ""), ",", ".");
    ParseFloatNeedsDigit(Rewrite(s));
  }

  // ---------------------------------------------------------------------
  // Text with two decimal commas is worth nothing.

  /** An unsigned numeral holds at most one '.'. */
  lemma ParseUnsignedOnePoint(u: string)
    requires Count(u, '.') >= 2
    ensures ParseUnsigned(u).None?
  {
    var i := IndexOf(u, '.');
    if i == |u| {
      CountAbsent(u, '.');
    } else {
      var ip, fp := u[..i], u[i + 1..];
      assert u == ip + [u[i]] + fp;
      CountConcat(ip + [u[i]], fp, '.');
      CountConcat(ip, [u[i]], '.');
      CountAbsent(ip, '.');
      if AllDigits(fp) {
        CountAbsent(fp, '.');
      }
    }
  }

  /** Decimal text with two points does not parse. */
  lemma ParseFloatOnePoint(t: string)
    requires Count(t, '.') >= 2
    ensures ParseFloat(t).None?
  {
    var s := Strip(t);
    CountStrip(t, '.');
    if |s| > 0 && (s[0] == '+' || s[0] == '-') {
      assert s == [s[0]] + s[1..];
      CountConcat([s[0]], s[1..], '.');
      ParseUnsignedOnePoint(s[1..]);
    } else {
      ParseUnsignedOnePoint(s);
    }
  }

  /** Text with two or more commas ("1,2,3") becomes a numeral with two
      points, which does not parse, so it is cleaned to 0. */
  lemma CleanMoneyTwoCommas(s: string)
    requires Count(s, ',') >= 2
    ensures CleanMoney(Text(s)) == Some(0.0)
  {
    var a := ReplaceAll(s, "R$", "");
    CountReplace(s, "R$", "", ',');
    var b := Strip(a);
    CountStrip(a, ',');
    var d := ReplaceAll(b, ".", "");
    CountReplace(b, ".", "", ',');
    CountReplaceChar(d, ',', '.');
    ParseFloatOnePoint(Rewrite(s));
  }

  // ---------------------------------------------------------------------
  // The formatter.

  /** Digits grouped in threes from the right, joined by `sep`. */
  function Group(d: string, sep: string): string
    decreases |d|
  {
    if |d| <= 3 then d else Group(d[..|d| - 3], sep) + sep + d[|d| - 3..]
  }

  function TwoDigits(f: nat): string
    requires f < 100
  {
    [DigitChar(f / 10), DigitChar(f % 10)]
  }

  function Abs(c: int): nat {
    if c < 0 then -c else c
  }

  function Sign(c: int): string {
    if c < 0 then "-" else ""
  }

  /** Python's `format(c / 100, ",.2f")` for a whole number of cents `c`:
      sign, integer part grouped by ',' and two decimals after '.'. */
  function FormatEnglish(c: int): string {
    Sign(c) + Group(Digits(Abs(c) / 100), ",") + "." + TwoDigits(Abs(c) % 100)
  }

  /** `formatar_valor_brl` over whole cents (`None` is NaN): the English
      rendering with ',' and '.' swapped through a placeholder 'X'. It gives
      "R$ ", the sign, the integer part grouped by '.', a ',' and exactly two
      decimals. */
  function FormatBrl(v: Option<int>): (r: string)
    ensures v.None? ==> r == "R$ 0,00"
  {
    if v.None? then "R$ 0,00"
    else ReplaceAll(ReplaceAll(ReplaceAll("R$ " + FormatEnglish(v.value), ",", "X"), ".", ","), "X", ".")
  }

  /** The rendering of `c` cents is "R$ ", the sign, the integer part grouped
      by '.', a ',' and exactly two decimals. */
  lemma FormatBrlShape(c: int)
    ensures FormatBrl(Some(c)) == "R$ " + Sign(c) + Group(Digits(Abs(c) / 100), ".") + "," + TwoDigits(Abs(c) % 100)
  {
    var p, d, t := "R$ " + Sign(c), Digits(Abs(c) / 100), TwoDigits(Abs(c) % 100);
    var e0 := "R$ " + FormatEnglish(c);
    assert e0 == p + Group(d, ",") + "." + t;
    var e1 := ReplaceAll(e0, ",", "X");
    ReplaceShape(p, d, ",", ".", t, ',', "X");
    assert e1 == p + Group(d, "X") + "." + t;
    var e2 := ReplaceAll(e1, ".", ",");
    ReplaceShape(p, d, "X", ".", t, '.', ",");
    assert e2 == p + Group(d, "X") + "," + t;
    ReplaceShape(p, d, "X", ",", t, 'X', ".");
  }

  lemma {:induction false} GroupChars(d: string, sep: string, a: char)
    requires AllDigits(d) && !IsDigit(a) && forall i :: 0 <= i < |sep| ==> sep[i] != a
    ensures forall i :: 0 <= i < |Group(d, sep)| ==> Group(d, sep)[i] != a
  {
    if |d| > 3 {
      GroupChars(d[..|d| - 3], sep, a);
    }
  }

  lemma {:induction false} GroupReplace(d: string, a: char, rep: string)
    requires AllDigits(d) && !IsDigit(a)
    ensures ReplaceAll(Group(d, [a]), [a], rep) == Group(d, rep)
  {
    if |d| <= 3 {
      ReplaceAbsent(d, [a], rep);
    } else {
      var h, tl := d[..|d| - 3], d[|d| - 3..];
      ReplaceCharConcat(Group(h, [a]) + [a], tl, a, rep);
      ReplaceCharConcat(Group(h, [a]), [a], a, rep);
      GroupReplace(h, a, rep);
      ReplaceAbsent(tl, [a], rep);
    }
  }

  lemma {:induction false} GroupEmpty(d: string)
    ensures Group(d, "") == d
  {
    if |d| > 3 {
      GroupEmpty(d[..|d| - 3]);
    }
  }

  /** One single-character replacement applied to a rendered amount
      `p + Group(d, sep) + m + t` rewrites only the separators. */
  lemma ReplaceShape(p: string, d: string, sep: string, m: string, t: string, a: char, rep: string)
    requires AllDigits(d) && AllDigits(t) && !IsDigit(a) && |m| == 1
    requires forall i :: 0 <= i < |p| ==> p[i] != a
    requires sep == [a] || forall i :: 0 <= i < |sep| ==> sep[i] != a
    ensures ReplaceAll(p + Group(d, sep) + m + t, [a], rep)
         == p + (if sep == [a] then Group(d, rep) else Group(d, sep)) + (if m == [a] then rep else m) + t
  {
    var g := Group(d, sep);
    var g' := if sep == [a] then Group(d, rep) else g;
    var m' := if m == [a] then rep else m;
    ReplaceCharConcat(p + g + m, t, a, rep);
    ReplaceCharConcat(p + g, m, a, rep);
    ReplaceCharConcat(p, g, a, rep);
    ReplaceAbsent(p, [a], rep);
    ReplaceAbsent(t, [a], rep);
    assert ReplaceAll(g, [a], rep) == g' by {
      if sep == [a] {
        GroupReplace(d, a, rep);
      } else {
        GroupChars(d, sep, a);
        ReplaceAbsent(g, [a], rep);
      }
    }
    assert ReplaceAll(m, [a], rep) == m' by {
      if m == [a] {
        ReplaceSelf(a, rep);
      } else {
        ReplaceAbsent(m, [a], rep);
      }
    }
  }

  lemma ReplaceSelf(a: char, rep: string)
    ensures ReplaceAll([a], [a], rep) == rep
  {
    assert [a][..1] == [a];
    assert ReplaceAll([a][1..], [a], rep) == [];
  }

  // ---------------------------------------------------------------------
  // Round trip: the parser reads back what the formatter writes.

  lemma NoSpaceStrip(x: string)
    requires |x| > 0 && !IsSpace(x[0]) && !IsSpace(x[|x| - 1])
    ensures Strip(x) == x && Strip(" " + x) == x
  {
    assert (" " + x)[1..] == x;
  }

  lemma TwoDigitsValue(f: nat)
    requires f < 100
    ensures AllDigits(TwoDigits(f)) && DigitsValue(TwoDigits(f)) == f
  {
    var t := TwoDigits(f);
    var hi, lo := DigitChar(f / 10), DigitChar(f % 10);
    assert DigitValue(hi) == f / 10 && DigitValue(lo) == f % 10;
    assert t[..1] == [hi] && t[..1][..0] == [];
    assert DigitsValue([hi]) == f / 10;
    assert DigitsValue(t) == DigitsValue(t[..1]) * 10 + DigitValue(lo);
  }

  /** The unsigned numeral `d.t` parses to its value. */
  lemma ParseUnsignedPoint(d: string, t: string)
    requires |d| > 0 && AllDigits(d) && AllDigits(t)
    ensures ParseUnsigned(d + "." + t) == Some(DecimalValue(d, t))
  {
    var u := d + "." + t;
    assert u[|d|] == '.';
    assert IndexOf(u, '.') == |d|;
    assert u[..|d|] == d && u[|d| + 1..] == t;
  }

  /** An unsigned numeral parses as itself, and negated after a '-'. */
  lemma ParseFloatUnsigned(u: string, v: real)
    requires |u| > 0 && IsDigit(u[0]) && IsDigit(u[|u| - 1])
    requires ParseUnsigned(u) == Some(v)
    ensures ParseFloat(u) == Some(v)
  {
    NoSpaceStrip(u);
  }

  lemma ParseFloatNegated(u: string, v: real)
    requires |u| > 0 && IsDigit(u[0]) && IsDigit(u[|u| - 1])
    requires ParseUnsigned(u) == Some(v)
    ensures ParseFloat("-" + u) == Some(-v)
  {
    var s := "-" + u;
    NoSpaceStrip(s);
    assert s[0] == '-' && s[1..] == u;
  }

  /** Dropping "R$" from "R$ " + `body` leaves " " + `body` when `body`
      holds no 'R'. */
  lemma DropCurrency(body: string)
    requires forall i :: 0 <= i < |body| ==> body[i] != 'R'
    ensures ReplaceAll("R$ " + body, "R$", "") == " " + body
  {
    assert "R$ " + body == "R$" + (" " + body);
    ReplacePrefix("R$", " " + body, "");
    ReplaceAbsent(" " + body, "R$", "");
  }

  /** What follows "R$ " in a rendered amount of `c` cents. */
  function RenderedBody(c: int): string {
    Sign(c) + Group(Digits(Abs(c) / 100), ".") + "," + TwoDigits(Abs(c) % 100)
  }

  /** A rendered body holds only '-', digits, '.' and ','; it starts with
      '-' or a digit and ends with a digit. */
  lemma RenderedBodyChars(c: int)
    ensures forall i :: 0 <= i < |RenderedBody(c)| ==> RenderedBody(c)[i] != 'R'
    ensures |RenderedBody(c)| > 0 && !IsSpace(RenderedBody(c)[0])
    ensures !IsSpace(RenderedBody(c)[|RenderedBody(c)| - 1])
  {
    var d, t := Digits(Abs(c) / 100), TwoDigits(Abs(c) % 100);
    TwoDigitsValue(Abs(c) % 100);
    GroupChars(d, ".", 'R');
    GroupFirst(d, ".");
    var g := Group(d, ".");
    var body := RenderedBody(c);
    assert body == Sign(c) + g + "," + t;
    assert body[|body| - 1] == t[1];
    assert body[0] == '-' || body[0] == g[0];
  }

  /** Dropping "R$" and stripping leaves the sign, the grouped digits and the cents. */
  lemma UnprefixRendered(c: int)
    ensures Strip(ReplaceAll(FormatBrl(Some(c)), "R$", "")) == RenderedBody(c)
  {
    var body := RenderedBody(c);
    FormatBrlShape(c);
    assert FormatBrl(Some(c)) == "R$ " + body;
    RenderedBodyChars(c);
    DropCurrency(body);
    NoSpaceStrip(body);
  }

  /** Deleting the '.' separators and turning ',' into '.' gives an English numeral. */
  lemma UnseparateRendered(c: int)
    ensures ReplaceAll(ReplaceAll(RenderedBody(c), ".", ""), ",", ".")
         == Sign(c) + Digits(Abs(c) / 100) + "." + TwoDigits(Abs(c) % 100)
  {
    var d, t := Digits(Abs(c) / 100), TwoDigits(Abs(c) % 100);
    TwoDigitsValue(Abs(c) % 100);
    ReplaceShape(Sign(c), d, ".", ",", t, '.', "");
    GroupEmpty(d);
    ReplaceShape(Sign(c), d, "", ",", t, ',', ".");
  }

  /** The rewrites of `limpar_valor_monetario` turn a rendered amount back
      into an English decimal numeral. */
  lemma RewriteRendered(c: int)
    ensures Rewrite(FormatBrl(Some(c))) == Sign(c) + Digits(Abs(c) / 100) + "." + TwoDigits(Abs(c) % 100)
  {
    UnprefixRendered(c);
    UnseparateRendered(c);
  }

  /** The integer digits and the two cents digits of `a` are worth `a / 100`. */
  lemma CentsValue(a: nat)
    ensures AllDigits(TwoDigits(a % 100))
    ensures DecimalValue(Digits(a / 100), TwoDigits(a % 100)) == a as real / 100.0
  {
    TwoDigitsValue(a % 100);
    assert Pow10(2) == 100;
    var q, r := a / 100, a % 100;
    assert a as real == 100.0 * q as real + r as real;
  }

  /** The English decimal numeral of `c` cents, as `limpar_valor_monetario`
      hands it to `float` after its rewrites. */
  function Numeral(c: int): string {
    if c < 0 then "-" + CentsNumeral(Abs(c)) else CentsNumeral(Abs(c))
  }

  /** The unsigned numeral of `a` cents: integer part, '.', two decimals. */
  function CentsNumeral(a: nat): string {
    Digits(a / 100) + "." + TwoDigits(a % 100)
  }

  lemma NumeralShape(c: int)
    ensures Sign(c) + Digits(Abs(c) / 100) + "." + TwoDigits(Abs(c) % 100) == Numeral(c)
  {
  }

  /** The English numeral of `c` cents parses to `c / 100`. */
  lemma ParseNumeral(c: int)
    ensures ParseFloat(Numeral(c)) == Some(c as real / 100.0)
  {
    if c < 0 {
      ParseNegativeNumeralOf(c);
    } else {
      ParseCents(c);
    }
  }

  /** The numeral of a negative amount of cents parses to its value. */
  lemma ParseNegativeNumeralOf(c: int)
    requires c < 0
    ensures ParseFloat(Numeral(c)) == Some(c as real / 100.0)
  {
    ParseNegativeCents(Abs(c));
    assert -(Abs(c) as real / 100.0) == c as real / 100.0;
  }

  /** The numeral of `a` cents parses to `a / 100`. */
  lemma ParseCents(a: nat)
    ensures ParseFloat(CentsNumeral(a)) == Some(a as real / 100.0)
  {
    CentsValue(a);
    ParseNonNegativeNumeral(Digits(a / 100), TwoDigits(a % 100), a as real / 100.0);
  }

  /** After a '-', the numeral of `a` cents parses to `-a / 100`. */
  lemma ParseNegativeCents(a: nat)
    ensures ParseFloat("-" + CentsNumeral(a)) == Some(-(a as real / 100.0))
  {
    CentsValue(a);
    ParseNegativeNumeral(Digits(a / 100), TwoDigits(a % 100), a as real / 100.0);
  }

  lemma ParseNonNegativeNumeral(d: string, t: string, v: real)
    requires |d| > 0 && AllDigits(d) && |t| > 0 && AllDigits(t)
    requires DecimalValue(d, t) == v
    ensures ParseFloat(d + "." + t) == Some(v)
  {
    var u := d + "." + t;
    ParseUnsignedPoint(d, t);
    assert u[|u| - 1] == t[|t| - 1] && u[0] == d[0];
    ParseFloatUnsigned(u, v);
  }

  lemma ParseNegativeNumeral(d: string, t: string, v: real)
    requires |d| > 0 && AllDigits(d) && |t| > 0 && AllDigits(t)
    requires DecimalValue(d, t) == v
    ensures ParseFloat("-" + (d + "." + t)) == Some(-v)
  {
    var u := d + "." + t;
    ParseUnsignedPoint(d, t);
    assert u[|u| - 1] == t[|t| - 1] && u[0] == d[0];
    ParseFloatNegated(u, v);
  }

  /** `limpar_valor_monetario(formatar_valor_brl(x)) == x` for every amount
      with at most two decimals. */
  lemma FormatThenClean(c: int)
    ensures CleanMoney(Text(FormatBrl(Some(c)))) == Some(c as real / 100.0)
  {
    RewriteRendered(c);
    NumeralShape(c);
    ParseNumeral(c);
  }

  lemma {:induction false} GroupFirst(d: string, sep: string)
    requires |d| > 0
    ensures |Group(d, sep)| > 0 && Group(d, sep)[0] == d[0]
  {
    if |d| > 3 {
      GroupFirst(d[..|d| - 3], sep);
    }
  }

  // ---------------------------------------------------------------------
  // Quantities.

  /** numpy's `round` to an integer: nearest integer, ties to even. */
  function RoundHalfEven(x: real): (n: int)
    ensures x - 0.5 <= n as real <= x + 0.5
    ensures (n as real == x - 0.5 || n as real == x + 0.5) ==> n % 2 == 0
  {
    var f := x.Floor;
    var frac := x - f as real;
    if frac < 0.5 then f
    else if frac > 0.5 then f + 1
    else if f % 2 == 0 then f
    else f + 1
  }

  /** `pd.to_numeric(..., errors='coerce').round().astype('Int64')` on one
      cell: numbers and numeric text are rounded, the rest is missing. */
  function ToQuantity(c: Cell): (q: Option<int>)
    ensures c.Num? ==> q == Some(RoundHalfEven(c.x))
    ensures c.Blank? || c.Other? ==> q.None?
    ensures c.Text? ==> (q.Some? <==> ParseFloat(c.s).Some?)
    ensures c.Text? && ParseFloat(c.s).Some? ==> q == Some(RoundHalfEven(ParseFloat(c.s).value))
  {
    match c
    case Num(x) => Some(RoundHalfEven(x))
    case Text(s) => (match ParseFloat(s) case Some(x) => Some(RoundHalfEven(x)) case None => None)
    case _ => None
  }
}

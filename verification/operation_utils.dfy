/** `ServiceChargeOperationUtils`: a guarded divide-then-multiply on decimals
    and a map-to-HTML-table writer. Decimals are `java.math.BigDecimal`
    values as (unscaled value, scale) pairs, so that `equals`, which compares
    the scale too, is datatype equality. */
module OperationUtils {
  import opened Results

  /** `unscaled × 10^-scale`. */
  datatype Decimal = Decimal(unscaled: int, scale: int)

  /** `BigDecimal.ZERO` and `BigDecimal.ONE`. */
  const Zero := Decimal(0, 0)
  const One := Decimal(1, 0)

  /** The exception `BigDecimal.divide` throws for a zero divisor. */
  datatype ArithmeticError = DivisionByZero

  function Pow10(n: nat): (p: nat)
    ensures p >= 1
  {
    if n == 0 then 1 else 10 * Pow10(n - 1)
  }

  function Abs(x: int): nat
  {
    if x < 0 then -x else x
  }

  /** The integer nearest to `n / d`, a tie rounded away from zero
      (`RoundingMode.HALF_UP`). */
  function RoundHalfUp(n: int, d: int): (q: int)
    requires d != 0
    ensures 2 * Abs(n - q * d) <= Abs(d)
    ensures 2 * Abs(n - q * d) == Abs(d) ==> Abs(q * d) > Abs(n)
  {
    var m := RoundedMagnitude(Abs(n), Abs(d));
    var q: int := if (n < 0) == (d < 0) then m as int else -(m as int);
    SignedProduct(n, d, m, q);
    q
  }

  /** The quotient of two magnitudes rounded half up. */
  function RoundedMagnitude(a: nat, b: nat): (m: nat)
    requires b > 0
    ensures 2 * Abs(a - m * b) <= b
    ensures 2 * Abs(a - m * b) == b ==> m * b > a
  {
    var m := if 2 * (a % b) >= b then a / b + 1 else a / b;
    assert a == (a / b) * b + a % b;
    assert 2 * (a % b) >= b ==> m * b == (a / b) * b + b;
    m
  }

  /** Restoring the sign of a quotient of magnitudes. */
  lemma SignedProduct(n: int, d: int, m: nat, q: int)
    requires d != 0
    requires q == (if (n < 0) == (d < 0) then m as int else -(m as int))
    ensures Abs(n - q * d) == Abs(Abs(n) - m * Abs(d))
    ensures Abs(q * d) == m * Abs(d)
  {
    var b := Abs(d);
    if d > 0 {
      assert q * d == q * b;
    } else {
      assert q * d == -(q * b);
    }
    if (n < 0) == (d < 0) {
      if d > 0 {
        assert q * d == m * b;
      } else {
        assert q * d == -(m * b);
      }
    } else {
      if d > 0 {
        assert q * d == -(m * b);
      } else {
        assert q * d == m * b;
      }
    }
  }

  /** `a.divide(b, HALF_UP)`: the quotient at `a`'s scale, rounded half up;
      a zero divisor, at any scale, throws. */
  function Divide(a: Decimal, b: Decimal): (r: Result<Decimal, ArithmeticError>)
    ensures r.Err? <==> b.unscaled == 0
    ensures r.Ok? ==> r.value.scale == a.scale
    ensures r.Ok? ==> r.value.unscaled == RoundHalfUp(DivideNumerator(a, b), DivideDenominator(b))
  {
    if b.unscaled == 0 then Err(DivisionByZero)
    else Ok(Decimal(RoundHalfUp(DivideNumerator(a, b), DivideDenominator(b)), a.scale))
  }

  /** The result's unscaled value is `a.unscaled × 10^b.scale / b.unscaled`;
      the power of ten goes on whichever side keeps both integers. */
  function DivideNumerator(a: Decimal, b: Decimal): int
  {
    if b.scale >= 0 then a.unscaled * Pow10(b.scale) else a.unscaled
  }

  function DivideDenominator(b: Decimal): int
  {
    if b.scale >= 0 then b.unscaled else b.unscaled * Pow10(-b.scale)
  }

  /** `a.multiply(b)`: exact, with the scales added. */
  function Multiply(a: Decimal, b: Decimal): Decimal
  {
    Decimal(a.unscaled * b.unscaled, a.scale + b.scale)
  }

  /** `x != null && !x.equals(BigDecimal.ZERO)`: `equals` compares scale as
      well as value, so only the zero of scale 0 fails the test. */
  predicate AppliesAsWritten(x: Option<Decimal>)
  {
    x.Some? && x.value != Zero
  }

  /** `divideAndMultiplyNonZeroValues` as written. */
  function DivideAndMultiplyAsWritten(operand: Option<Decimal>, divisor: Option<Decimal>,
                                      multiplicand: Option<Decimal>): (r: Result<Decimal, ArithmeticError>)
    ensures operand.None? ==> r == Ok(One)
    ensures r.Err? <==> operand.Some? && AppliesAsWritten(divisor) && divisor.value.unscaled == 0
    ensures operand.Some? && !AppliesAsWritten(divisor) && !AppliesAsWritten(multiplicand)
            ==> r == Ok(operand.value)
    ensures operand.Some? && AppliesAsWritten(divisor) && divisor.value.unscaled != 0 ==>
              var q := RoundHalfUp(DivideNumerator(operand.value, divisor.value), DivideDenominator(divisor.value));
              r == Ok(if AppliesAsWritten(multiplicand)
                      then Decimal(q * multiplicand.value.unscaled, operand.value.scale + multiplicand.value.scale)
                      else Decimal(q, operand.value.scale))
    ensures operand.Some? && !AppliesAsWritten(divisor) && AppliesAsWritten(multiplicand) ==>
              r == Ok(Decimal(operand.value.unscaled * multiplicand.value.unscaled,
                              operand.value.scale + multiplicand.value.scale))
  {
    if operand.None? then Ok(One)
    else
      var divided :- if AppliesAsWritten(divisor) then Divide(operand.value, divisor.value)
                     else Ok(operand.value);
      Ok(if AppliesAsWritten(multiplicand) then Multiply(divided, multiplicand.value) else divided)
  }

  /** A zero divisor written with two decimal places gets past the guard and
      makes the division throw. */
  lemma ScaledZeroDivisorThrows(operand: Decimal)
    ensures DivideAndMultiplyAsWritten(Some(operand), Some(Decimal(0, 2)), None).Err?
  {
  }

  /** The divisor guard the method evidently intends: skip the division for
      a divisor that is absent or numerically zero, whatever its scale. */
  predicate Applies(x: Option<Decimal>)
  {
    x.Some? && x.value.unscaled != 0
  }

  /** `divideAndMultiplyNonZeroValues` with the divisor guard comparing
      values; the multiplicand guard is the source's. It never throws; a
      null operand gives one; a skipped step leaves the value as it was; the
      division keeps the operand's scale and rounds half up; the
      multiplication adds the scales. */
  function DivideAndMultiplyNonZeroValues(operand: Option<Decimal>, divisor: Option<Decimal>,
                                          multiplicand: Option<Decimal>): (r: Decimal)
    ensures operand.None? ==> r == One
    ensures operand.Some? && !Applies(divisor) && !AppliesAsWritten(multiplicand) ==> r == operand.value
    ensures operand.Some? ==>
              r.scale == operand.value.scale + (if AppliesAsWritten(multiplicand) then multiplicand.value.scale else 0)
    ensures operand.Some? && Applies(divisor) && !AppliesAsWritten(multiplicand) ==>
              r.unscaled == RoundHalfUp(DivideNumerator(operand.value, divisor.value),
                                        DivideDenominator(divisor.value))
    ensures operand.Some? && !Applies(divisor) && AppliesAsWritten(multiplicand) ==>
              r.unscaled == operand.value.unscaled * multiplicand.value.unscaled
    ensures operand.Some? && Applies(divisor) && AppliesAsWritten(multiplicand) ==>
              r.unscaled == RoundHalfUp(DivideNumerator(operand.value, divisor.value),
                                        DivideDenominator(divisor.value)) * multiplicand.value.unscaled
  {
    if operand.None? then One
    else
      var divided := if Applies(divisor) then Divide(operand.value, divisor.value).value else operand.value;
      if AppliesAsWritten(multiplicand) then Multiply(divided, multiplicand.value) else divided
  }

  /** Where the source does not throw, the corrected method returns what it
      does; where it throws, the divisor is a zero written with a scale and
      the corrected method skips the division. */
  lemma CorrectedAgreesWhenNoThrow(operand: Option<Decimal>, divisor: Option<Decimal>, multiplicand: Option<Decimal>)
    ensures var w := DivideAndMultiplyAsWritten(operand, divisor, multiplicand);
            && (w.Ok? ==> w.value == DivideAndMultiplyNonZeroValues(operand, divisor, multiplicand))
            && (w.Err? ==> divisor.Some? && divisor.value.unscaled == 0 && divisor.value.scale != 0
                           && DivideAndMultiplyNonZeroValues(operand, divisor, multiplicand)
                              == DivideAndMultiplyNonZeroValues(operand, None, multiplicand))
  {
  }

  /** A divisor that divides the operand exactly at the operand's scale
      gives the exact quotient: rounding never moves an exact result. */
  lemma ExactDivision(a: Decimal, b: Decimal, k: int)
    requires b.unscaled != 0
    requires DivideNumerator(a, b) == k * DivideDenominator(b)
    ensures Divide(a, b) == Ok(Decimal(k, a.scale))
  {
    var n := DivideNumerator(a, b);
    var d := DivideDenominator(b);
    assert d != 0 by {
      if b.scale < 0 {
        assert Pow10(-b.scale) >= 1;
      }
    }
    var q := RoundHalfUp(n, d);
    Distribute(k, q, d);
    AbsProduct(k - q, d);
    if k != q {
      AtLeastOnce(Abs(k - q), Abs(d));
    }
  }

  lemma Distribute(k: int, q: int, d: int)
    ensures k * d - q * d == (k - q) * d
  {
  }

  lemma AtLeastOnce(x: nat, y: nat)
    requires x >= 1
    ensures x * y >= y
  {
  }

  lemma AbsProduct(x: int, y: int)
    ensures Abs(x * y) == Abs(x) * Abs(y)
  {
    if x < 0 && y < 0 {
      assert x * y == Abs(x) * Abs(y);
    } else if x < 0 {
      assert x * y == -(Abs(x) * y);
    } else if y < 0 {
      assert x * y == -(x * Abs(y));
    }
  }

  // ---------------------------------------------------------------------------
  // convertMapToHTMLTable

  const TableOpen: string := "<table table style=\"width:100%\" border=5pt>"
  const TableClose: string := "</table>"

  /** One `<td>` cell. */
  function Cell(text: string): string
  {
    "<td>" + text + "</td>"
  }

  /** The cells of a list, in list order. */
  function Cells(elements: seq<string>): string
  {
    if |elements| == 0 then "" else Cell(elements[0]) + Cells(elements[1..])
  }

  /** One `<tr>`: the key cell, then one cell per element. */
  function Row(key: string, elements: seq<string>): string
  {
    "<tr>" + Cell(key) + Cells(elements) + "</tr>"
  }

  function Rows(entries: seq<(string, seq<string>)>): string
  {
    if |entries| == 0 then "" else Row(entries[0].0, entries[0].1) + Rows(entries[1..])
  }

  /** `convertMapToHTMLTable` over the map's entries in iteration order. */
  function ConvertMapToHtmlTable(entries: seq<(string, seq<string>)>): (html: string)
    ensures |html| >= |TableOpen| + |TableClose|
    ensures html[..|TableOpen|] == TableOpen
    ensures html[|html| - |TableClose|..] == TableClose
    ensures |entries| == 0 ==> html == TableOpen + TableClose
  {
    TableOpen + Rows(entries) + TableClose
  }

  // ---------------------------------------------------------------------------
  // Reading a table back

  predicate StartsWith(s: string, p: string)
  {
    |p| <= |s| && s[..|p|] == p
  }

  predicate NoTag(s: string)
  {
    forall i :: 0 <= i < |s| ==> s[i] != '<'
  }

  /** The text up to the first `<`, and the rest. */
  function ReadText(s: string): (r: (string, string))
    ensures r.0 + r.1 == s && NoTag(r.0)
    ensures |r.1| > 0 ==> r.1[0] == '<'
  {
    if |s| == 0 || s[0] == '<' then ("", s)
    else
      var (t, rest) := ReadText(s[1..]);
      ([s[0]] + t, rest)
  }

  /** Cells up to the closing `</tr>`. */
  function ParseCells(s: string): Option<(seq<string>, string)>
    decreases |s|
  {
    if StartsWith(s, "</tr>") then Some(([], s[5..]))
    else if StartsWith(s, "<td>") then
      var (text, rest) := ReadText(s[4..]);
      if StartsWith(rest, "</td>") then
        match ParseCells(rest[5..])
        case None => None
        case Some((more, tail)) => Some(([text] + more, tail))
      else None
    else None
  }

  /** Rows up to the closing `</table>`. */
  function ParseRows(s: string): Option<seq<(string, seq<string>)>>
    decreases |s|
  {
    if s == TableClose then Some([])
    else if StartsWith(s, "<tr><td>") then
      var (key, rest) := ReadText(s[8..]);
      if StartsWith(rest, "</td>") then
        match ParseCells(rest[5..])
        case None => None
        case Some((elements, tail)) =>
          if |tail| < |s| then
            match ParseRows(tail)
            case None => None
            case Some(more) => Some([(key, elements)] + more)
          else None
      else None
    else None
  }

  function ParseHtmlTable(html: string): Option<seq<(string, seq<string>)>>
  {
    if StartsWith(html, TableOpen) then ParseRows(html[|TableOpen|..]) else None
  }

  /** Keys and elements that contain no `<`. */
  predicate PlainEntries(entries: seq<(string, seq<string>)>)
  {
    forall i :: 0 <= i < |entries| ==>
      NoTag(entries[i].0) && forall j :: 0 <= j < |entries[i].1| ==> NoTag(entries[i].1[j])
  }

  lemma {:induction false} ReadTextStopsAtTag(t: string, rest: string)
    requires NoTag(t) && |rest| > 0 && rest[0] == '<'
    ensures ReadText(t + rest) == (t, rest)
  {
    if |t| > 0 {
      assert (t + rest)[0] == t[0];
      assert (t + rest)[1..] == t[1..] + rest;
      ReadTextStopsAtTag(t[1..], rest);
      assert [t[0]] + t[1..] == t;
    } else {
      assert t + rest == rest;
    }
  }

  lemma {:induction false} CellsReadBack(elements: seq<string>, tail: string)
    requires forall j :: 0 <= j < |elements| ==> NoTag(elements[j])
    ensures ParseCells(Cells(elements) + "</tr>" + tail) == Some((elements, tail))
  {
    var s := Cells(elements) + "</tr>" + tail;
    if |elements| == 0 {
      assert s == "</tr>" + tail;
      assert s[..5] == "</tr>";
    } else {
      var e := elements[0];
      var rest := Cells(elements[1..]) + "</tr>" + tail;
      assert s == "<td>" + (e + ("</td>" + rest));
      assert s[..4] == "<td>";
      assert s[..5] != "</tr>" by { assert s[..5][1] == 't'; }
      assert s[4..] == e + ("</td>" + rest);
      ReadTextStopsAtTag(e, "</td>" + rest);
      assert ("</td>" + rest)[..5] == "</td>";
      assert ("</td>" + rest)[5..] == rest;
      CellsReadBack(elements[1..], tail);
      assert [e] + elements[1..] == elements;
    }
  }

  /** How a row followed by anything reads back. */
  lemma RowReadsBack(key: string, elements: seq<string>, tail: string)
    requires NoTag(key) && forall j :: 0 <= j < |elements| ==> NoTag(elements[j])
    ensures var s := Row(key, elements) + tail;
            var afterKey := Cells(elements) + "</tr>" + tail;
            && s != TableClose && StartsWith(s, "<tr><td>")
            && ReadText(s[8..]) == (key, "</td>" + afterKey)
            && StartsWith("</td>" + afterKey, "</td>")
            && ("</td>" + afterKey)[5..] == afterKey
            && ParseCells(afterKey) == Some((elements, tail))
            && |tail| < |s|
  {
    var s := Row(key, elements) + tail;
    var afterKey := Cells(elements) + "</tr>" + tail;
    assert s == "<tr><td>" + (key + ("</td>" + afterKey));
    assert s != TableClose by { assert s[1] != TableClose[1]; }
    assert StartsWith(s, "<tr><td>") by { assert s[..8] == "<tr><td>"; }
    assert ReadText(s[8..]) == (key, "</td>" + afterKey) by {
      assert s[8..] == key + ("</td>" + afterKey);
      ReadTextStopsAtTag(key, "</td>" + afterKey);
    }
    assert StartsWith("</td>" + afterKey, "</td>") by {
      assert ("</td>" + afterKey)[..5] == "</td>";
    }
    CellsReadBack(elements, tail);
  }

  lemma {:induction false} RowsReadBack(entries: seq<(string, seq<string>)>)
    requires PlainEntries(entries)
    ensures ParseRows(Rows(entries) + TableClose) == Some(entries)
  {
    if |entries| > 0 {
      var key := entries[0].0;
      var elements := entries[0].1;
      var tail := Rows(entries[1..]) + TableClose;
      assert Rows(entries) + TableClose == Row(key, elements) + tail;
      RowReadsBack(key, elements, tail);
      assert PlainEntries(entries[1..]);
      RowsReadBack(entries[1..]);
      assert [(key, elements)] + entries[1..] == entries;
    }
  }

  /** The table reads back to the entries it was written from, provided no
      key or element contains a `<`. */
  lemma HtmlTableReadsBack(entries: seq<(string, seq<string>)>)
    requires PlainEntries(entries)
    ensures ParseHtmlTable(ConvertMapToHtmlTable(entries)) == Some(entries)
  {
    var html := ConvertMapToHtmlTable(entries);
    assert html[|TableOpen|..] == Rows(entries) + TableClose;
    RowsReadBack(entries);
  }
}

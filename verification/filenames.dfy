/** Names of the captured images: `x{col}_y{row}.jpg` inside the session folder.

    Python formats a non-negative `int` in an f-string as its shortest
    decimal numeral. `Decimal` is that rendering and `ParseDecimal` its
    inverse; together they show that the filename scheme never gives two
    grid points the same file.
 */
module FileNames {
  import opened Grid

  predicate IsDigit(c: char) {
    '0' <= c <= '9'
  }

  predicate AllDigits(s: string) {
    forall i :: 0 <= i < |s| ==> IsDigit(s[i])
  }

  /** A numeral as Python prints a non-negative int: digits only, and no
      leading zero except for the numeral `0` itself. */
  predicate Canonical(s: string) {
    |s| > 0 && AllDigits(s) && (s[0] == '0' ==> |s| == 1)
  }

  function DigitChar(d: nat): (c: char)
    requires d < 10
    ensures IsDigit(c)
  {
    ('0' as int + d) as char
  }

  function DigitValue(c: char): (d: nat)
    requires IsDigit(c)
    ensures d < 10
    ensures DigitChar(d) == c
  {
    c as int - '0' as int
  }

  /** The decimal numeral of `n`, as `f"{n}"` writes it. */
  function Decimal(n: nat): (s: string)
    ensures Canonical(s)
  {
    if n < 10 then [DigitChar(n)] else Decimal(n / 10) + [DigitChar(n % 10)]
  }

  /** The value of a string of decimal digits (0 for the empty string). */
  function ParseDecimal(s: string): nat
    requires AllDigits(s)
  {
    if |s| == 0 then 0 else ParseDecimal(s[..|s| - 1]) * 10 + DigitValue(s[|s| - 1])
  }

  /** The file name of the capture at grid point `p`: X is the column, Y the row. */
  function FileName(p: Point): string {
    "x" + Decimal(p.col) + "_y" + Decimal(p.row) + ".jpg"
  }

  /** `f"{folder_name}/x{col}_y{row}.jpg"` */
  function CapturePath(folder: string, p: Point): string {
    folder + "/" + FileName(p)
  }

  // ---------------------------------------------------------------------
  // Round trip between numerals and numbers
  // ---------------------------------------------------------------------

  /** Reading back a rendered number gives the number. */
  lemma {:induction false} DecimalRoundTrip(n: nat)
    ensures ParseDecimal(Decimal(n)) == n
  {
    if n >= 10 {
      var s := Decimal(n);
      assert s[..|s| - 1] == Decimal(n / 10);
      DecimalRoundTrip(n / 10);
    }
  }

  /** A canonical numeral with a leading non-zero digit denotes a positive number. */
  lemma {:induction false} ParseDecimalPositive(s: string)
    requires AllDigits(s) && |s| > 0 && s[0] != '0'
    ensures ParseDecimal(s) > 0
  {
    if |s| > 1 {
      ParseDecimalPositive(s[..|s| - 1]);
    } else {
      assert s[0] != '0';
    }
  }

  /** Rendering a parsed canonical numeral gives the numeral back. */
  lemma {:induction false} ParseDecimalRoundTrip(s: string)
    requires Canonical(s)
    ensures Decimal(ParseDecimal(s)) == s
  {
    if |s| > 1 {
      var init := s[..|s| - 1];
      assert init[0] == s[0];
      ParseDecimalPositive(init);
      ParseDecimalRoundTrip(init);
      var n := ParseDecimal(s);
      assert n / 10 == ParseDecimal(init) && n % 10 == DigitValue(s[|s| - 1]);
      assert s == init + [s[|s| - 1]];
    }
  }

  /** Distinct numbers have distinct numerals. */
  lemma DecimalInjective(m: nat, n: nat)
    ensures Decimal(m) == Decimal(n) <==> m == n
  {
    DecimalRoundTrip(m);
    DecimalRoundTrip(n);
  }

  // ---------------------------------------------------------------------
  // No file of a scan overwrites another
  // ---------------------------------------------------------------------

  /** In `x{a}_{rest}` with `a` all digits, the first `_` is the one right after `a`. */
  lemma FirstUnderscore(a: string, rest: string)
    requires AllDigits(a)
    ensures ("x" + a + "_" + rest)[1 + |a|] == '_'
    ensures forall i :: 1 <= i < 1 + |a| ==> ("x" + a + "_" + rest)[i] != '_'
  {
  }

  /** In `x{a}_{rest}` with `a` all digits, the first `_` ends `a`, so `a`
      and `rest` are recovered from the whole. */
  lemma ColumnFieldDetermined(a: string, rest: string, c: string, rest': string)
    requires AllDigits(a) && AllDigits(c)
    requires "x" + a + "_" + rest == "x" + c + "_" + rest'
    ensures a == c && rest == rest'
  {
    var s, t := "x" + a + "_" + rest, "x" + c + "_" + rest';
    FirstUnderscore(a, rest);
    FirstUnderscore(c, rest');
    assert |a| == |c|;
    assert a == s[1..1 + |a|];
    assert c == t[1..1 + |c|];
    assert rest == s[2 + |a|..];
    assert rest' == t[2 + |c|..];
  }

  /** In `y{b}.jpg` the row numeral is what lies between the fixed ends. */
  lemma RowFieldDetermined(b: string, d: string)
    requires "y" + b + ".jpg" == "y" + d + ".jpg"
    ensures b == d
  {
    var s, t := "y" + b + ".jpg", "y" + d + ".jpg";
    assert b == s[1..1 + |b|];
    assert d == t[1..1 + |d|];
  }

  /** The pieces of `x{a}_y{b}.jpg` are recovered from the whole: the first
      `_` ends the column numeral, and the fixed suffix ends the row numeral. */
  lemma NameFieldsDetermined(a: string, b: string, c: string, d: string)
    requires AllDigits(a) && AllDigits(c)
    requires "x" + a + "_y" + b + ".jpg" == "x" + c + "_y" + d + ".jpg"
    ensures a == c && b == d
  {
    assert "x" + a + "_y" + b + ".jpg" == "x" + a + "_" + ("y" + b + ".jpg");
    assert "x" + c + "_y" + d + ".jpg" == "x" + c + "_" + ("y" + d + ".jpg");
    ColumnFieldDetermined(a, "y" + b + ".jpg", c, "y" + d + ".jpg");
    RowFieldDetermined(b, d);
  }

  /** Two grid points share a file name only if they are the same point. */
  lemma FileNameInjective(p: Point, q: Point)
    ensures FileName(p) == FileName(q) <==> p == q
  {
    if FileName(p) == FileName(q) {
      NameFieldsDetermined(Decimal(p.col), Decimal(p.row), Decimal(q.col), Decimal(q.row));
      DecimalInjective(p.col, q.col);
      DecimalInjective(p.row, q.row);
    }
  }

  /** Within one session folder, two grid points share a capture path only if
      they are the same point. */
  lemma CapturePathInjective(folder: string, p: Point, q: Point)
    ensures CapturePath(folder, p) == CapturePath(folder, q) <==> p == q
  {
    if CapturePath(folder, p) == CapturePath(folder, q) {
      var prefix := folder + "/";
      assert FileName(p) == CapturePath(folder, p)[|prefix|..];
      assert FileName(q) == CapturePath(folder, q)[|prefix|..];
      FileNameInjective(p, q);
    }
  }

  /** The point in row 0, column 1 is saved as `x1_y0.jpg`: X names the column. */
  lemma FileNameExample()
    ensures FileName(Point(0, 1)) == "x1_y0.jpg"
    ensures FileName(Point(1, 0)) == "x0_y1.jpg"
  {
  }
}

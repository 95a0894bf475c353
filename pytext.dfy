/** The text Python produces from decoded JSON values: `str(x)`, as an
    f-string's plain `{x}` field writes it, and `format(n, ",")`, the
    thousands-separator option of the format mini-language (PEP 378). */
module PyText {
  import opened PyJson

  predicate IsDigit(c: char) {
    '0' <= c <= '9'
  }

  predicate AllDigits(s: string) {
    forall k :: 0 <= k < |s| ==> IsDigit(s[k])
  }

  function DigitChar(d: nat): (c: char)
    requires d < 10
    ensures IsDigit(c) && c as int - '0' as int == d
  {
    ('0' as int + d) as char
  }

  /** The number a string of decimal digits denotes. */
  function DigitsValue(ds: string): nat
    requires AllDigits(ds)
    decreases |ds|
  {
    if ds == [] then 0
    else DigitsValue(ds[..|ds| - 1]) * 10 + (ds[|ds| - 1] as int - '0' as int)
  }

  /** `str(n)` for a natural number: its decimal digits, most significant
      first, with no leading zero. */
  function DecimalDigits(n: nat): (r: string)
    ensures r != [] && AllDigits(r)
    ensures DigitsValue(r) == n
    ensures r[0] == '0' ==> r == "0"
    decreases n
  {
    if n < 10 then [DigitChar(n)]
    else
      var front := DecimalDigits(n / 10);
      var r := front + [DigitChar(n % 10)];
      assert r[..|r| - 1] == front;
      r
  }

  /** A digit string with a non-zero first digit denotes a positive number. */
  lemma {:induction false} LeadingDigitPositive(ds: string)
    requires ds != [] && AllDigits(ds) && ds[0] != '0'
    ensures DigitsValue(ds) > 0
    decreases |ds|
  {
    if |ds| > 1 {
      var front := ds[..|ds| - 1];
      assert front[0] == ds[0];
      LeadingDigitPositive(front);
    }
  }

  /** Every digit string without a leading zero is the decimal text of the
      number it denotes. */
  lemma {:induction false} DecimalDigitsOfValue(ds: string)
    requires ds != [] && AllDigits(ds)
    requires ds[0] == '0' ==> ds == "0"
    ensures DecimalDigits(DigitsValue(ds)) == ds
    decreases |ds|
  {
    if |ds| > 1 {
      var front := ds[..|ds| - 1];
      assert front[0] == ds[0];
      LeadingDigitPositive(front);
      DecimalDigitsOfValue(front);
      var n := DigitsValue(ds);
      assert n / 10 == DigitsValue(front) && n % 10 == ds[|ds| - 1] as int - '0' as int;
      assert ds == front + [ds[|ds| - 1]];
    }
  }

  /** `str(i)` for an integer: a minus sign for a negative number, then the
      digits of its magnitude. */
  function IntText(i: int): (r: string)
    ensures r != [] && (r[0] == '-' <==> i < 0)
    ensures i < 0 ==> r[1..] == DecimalDigits(-i)
    ensures i >= 0 ==> r == DecimalDigits(i)
  {
    if i < 0 then "-" + DecimalDigits(-i) else DecimalDigits(i)
  }

  /** The number an optional minus sign and a digit string denote. */
  function SignedValue(s: string): int
    requires s != [] && s[0] == '-' ==> AllDigits(s[1..])
    requires s == [] || s[0] != '-' ==> AllDigits(s)
  {
    if s != [] && s[0] == '-' then -(DigitsValue(s[1..]) as int) else DigitsValue(s)
  }

  /** Reading the text of `i` back gives `i`. */
  lemma IntTextValue(i: int)
    ensures var t := IntText(i); t[0] == '-' ==> AllDigits(t[1..])
    ensures var t := IntText(i); t[0] != '-' ==> AllDigits(t)
    ensures SignedValue(IntText(i)) == i
  {
  }

  /** The string with every comma removed. */
  function Strip(s: string): (r: string)
    ensures |r| <= |s|
    decreases |s|
  {
    if s == [] then []
    else Strip(s[..|s| - 1]) + (if s[|s| - 1] == ',' then [] else [s[|s| - 1]])
  }

  lemma {:induction false} StripConcat(a: string, b: string)
    ensures Strip(a + b) == Strip(a) + Strip(b)
    decreases |b|
  {
    if b == [] {
      assert a + b == a;
    } else {
      var front := b[..|b| - 1];
      assert (a + b)[..|a + b| - 1] == a + front;
      StripConcat(a, front);
    }
  }

  lemma {:induction false} StripNoCommas(s: string)
    requires forall k :: 0 <= k < |s| ==> s[k] != ','
    ensures Strip(s) == s
    decreases |s|
  {
    if s != [] {
      StripNoCommas(s[..|s| - 1]);
    }
  }

  /** The digits split into groups of three from the right, joined by
      commas. */
  function Grouped(ds: string): string
    decreases |ds|
  {
    if |ds| <= 3 then ds else Grouped(ds[..|ds| - 3]) + "," + ds[|ds| - 3..]
  }

  predicate NoCommas(s: string) {
    forall k :: 0 <= k < |s| ==> s[k] != ','
  }

  /** Removing the commas from `g + "," + back` leaves the stripped `g`
      followed by `back`, when `back` has no commas. */
  lemma StripGroup(g: string, back: string)
    requires NoCommas(back)
    ensures Strip(g + "," + back) == Strip(g) + back
  {
    assert (g + ",")[..|g|] == g;
    assert Strip(g + ",") == Strip(g);
    StripConcat(g + ",", back);
    StripNoCommas(back);
  }

  /** Removing the commas from the grouped digits gives the digits back. */
  lemma {:induction false} GroupedStrip(ds: string)
    requires NoCommas(ds)
    ensures Strip(Grouped(ds)) == ds
    decreases |ds|
  {
    if |ds| <= 3 {
      StripNoCommas(ds);
    } else {
      var front, back := ds[..|ds| - 3], ds[|ds| - 3..];
      GroupedStrip(front);
      StripGroup(Grouped(front), back);
      assert ds == front + back;
    }
  }

  /** A comma stands exactly at every fourth position counted from the end
      and the length is not a multiple of four, so the first group has one
      to three digits and every later group exactly three. */
  lemma {:induction false} GroupedCommas(ds: string)
    requires ds != [] && NoCommas(ds)
    ensures var r := Grouped(ds);
      && |r| % 4 != 0
      && r[0] == ds[0]
      && forall p :: 0 <= p < |r| ==> (r[p] == ',' <==> (|r| - p) % 4 == 0)
    decreases |ds|
  {
    if |ds| > 3 {
      var front, back := ds[..|ds| - 3], ds[|ds| - 3..];
      GroupedCommas(front);
      var g, r := Grouped(front), Grouped(ds);
      assert r == g + "," + back;
      assert r[0] == g[0];
      forall p | 0 <= p < |r| ensures r[p] == ',' <==> (|r| - p) % 4 == 0 {
        if p < |g| {
          assert r[p] == g[p];
          assert |r| - p == (|g| - p) + 4;
        } else if p > |g| {
          assert r[p] == back[p - |g| - 1];
        }
      }
    }
  }

  /** `format(count, ",")` for a decoded JSON value. An int is written with
      its sign and grouped digits; a bool formats as the int it is; a string
      rejects the `,` option with ValueError; `None`, a list or a dict has
      no such format and raises TypeError. */
  function FormatThousands(count: Json): (r: Result<string>)
    ensures r.Ok? <==> count.JInt? || count.JBool?
    ensures count.JStr? ==> r == Err(ValueError)
    ensures count.JNull? || count.JArr? || count.JObj? ==> r == Err(TypeError)
    ensures count.JBool? ==> r == Ok(if count.b then "1" else "0")
  {
    match count
    case JInt(i) => Ok((if i < 0 then "-" else "") + Grouped(DecimalDigits(if i < 0 then -i else i)))
    case JBool(b) => Ok(if b then "1" else "0")
    case JStr(_) => Err(ValueError)
    case _ => Err(TypeError)
  }

  /** Removing the commas from the grouped text of an int gives `str(i)`. */
  lemma FormatThousandsStrip(i: int)
    ensures FormatThousands(JInt(i)).Ok?
    ensures Strip(FormatThousands(JInt(i)).value) == IntText(i)
  {
    var ds := DecimalDigits(if i < 0 then -i else i);
    assert NoCommas(ds);
    GroupedStrip(ds);
    var g := Grouped(ds);
    if i < 0 {
      assert FormatThousands(JInt(i)).value == "-" + g;
      StripConcat("-", g);
      assert Strip("-") == "-";
    } else {
      assert FormatThousands(JInt(i)).value == g;
    }
  }

  /** A comma layout survives an optional sign put in front. */
  lemma SignedCommas(s: string, g: string, negative: bool)
    requires s == (if negative then "-" else "") + g
    requires g != [] && g[0] != '-'
    requires |g| % 4 != 0 && forall p :: 0 <= p < |g| ==> (g[p] == ',' <==> (|g| - p) % 4 == 0)
    ensures var digits := if negative then s[1..] else s;
      && (s[0] == '-' <==> negative)
      && |digits| % 4 != 0
      && forall p :: 0 <= p < |digits| ==> (digits[p] == ',' <==> (|digits| - p) % 4 == 0)
  {
    if negative {
      assert s[1..] == g;
    } else {
      assert s == g;
    }
  }

  /** In the grouped text of an int the sign is there exactly for a
      negative number, and after it a comma stands exactly at every fourth
      position from the end, the first group having one to three digits. */
  lemma FormatThousandsCommas(i: int)
    ensures FormatThousands(JInt(i)).Ok?
    ensures var s := FormatThousands(JInt(i)).value;
      var digits := if i < 0 then s[1..] else s;
      && (s[0] == '-' <==> i < 0)
      && |digits| % 4 != 0
      && forall p :: 0 <= p < |digits| ==> (digits[p] == ',' <==> (|digits| - p) % 4 == 0)
  {
    var ds := DecimalDigits(if i < 0 then -i else i);
    assert NoCommas(ds);
    GroupedCommas(ds);
    var g := Grouped(ds);
    assert g[0] != '-' by {
      assert g[0] == ds[0] && IsDigit(ds[0]);
    }
    SignedCommas(FormatThousands(JInt(i)).value, g, i < 0);
  }

  /** Reading a grouped text back, commas ignored, gives the int. */
  lemma FormatThousandsRoundTrip(i: int)
    ensures FormatThousands(JInt(i)).Ok?
    ensures var t := Strip(FormatThousands(JInt(i)).value);
      && t != []
      && (t[0] == '-' ==> AllDigits(t[1..]))
      && (t[0] != '-' ==> AllDigits(t))
      && SignedValue(t) == i
  {
    FormatThousandsStrip(i);
    IntTextValue(i);
  }

  /** `format(7, ",")` is `7`: no separator below a thousand. */
  lemma FormatThousandsSmall()
    ensures FormatThousands(JInt(7)) == Ok("7")
  {
    assert DecimalDigits(7) == "7";
    assert Grouped("7") == "7";
    assert "" + "7" == "7";
  }

  /** `format(1234, ",")` is `1,234`. */
  lemma FormatThousandsOneComma()
    ensures FormatThousands(JInt(1234)) == Ok("1,234")
  {
    assert DecimalDigits(1234) == "1234" by {
      assert DecimalDigits(1) == "1";
      assert DecimalDigits(12) == "12";
      assert DecimalDigits(123) == "123";
    }
    assert Grouped("1234") == "1,234" by {
      assert "1234"[..1] == "1" && "1234"[1..] == "234";
    }
    assert "" + "1,234" == "1,234";
  }

  /** `format(-12345, ",")` is `-12,345`: the sign stays in front. */
  lemma FormatThousandsNegative()
    ensures FormatThousands(JInt(-12345)) == Ok("-12,345")
  {
    assert DecimalDigits(12345) == "12345" by {
      assert DecimalDigits(1) == "1";
      assert DecimalDigits(12) == "12";
      assert DecimalDigits(123) == "123";
      assert DecimalDigits(1234) == "1234";
    }
    assert Grouped("12345") == "12,345" by {
      assert "12345"[..2] == "12" && "12345"[2..] == "345";
    }
    assert "-" + "12,345" == "-12,345";
  }

  /** Python's `repr` of a string, simplified: the text between single
      quotes. */
  function QuotedText(s: string): string {
    "'" + s + "'"
  }

  function Join(parts: seq<string>, sep: string): string
    decreases |parts|
  {
    if parts == [] then []
    else if |parts| == 1 then parts[0]
    else Join(parts[..|parts| - 1], sep) + sep + parts[|parts| - 1]
  }

  /** Python's `repr` of a decoded JSON value. */
  function Repr(j: Json): string
    decreases j
  {
    match j
    case JNull => "None"
    case JBool(b) => if b then "True" else "False"
    case JInt(i) => IntText(i)
    case JStr(s) => QuotedText(s)
    case JArr(items) =>
      "[" + Join(seq(|items|, k requires 0 <= k < |items| => Repr(items[k])), ", ") + "]"
    case JObj(fields) =>
      "{" + Join(seq(|fields|, k requires 0 <= k < |fields| =>
                       QuotedText(fields[k].0) + ": " + Repr(fields[k].1)), ", ") + "}"
  }

  /** `str(x)`, which an f-string's `{x}` writes: a string is itself; the
      other values are written as `repr` writes them. */
  function Str(j: Json): (r: string)
    ensures j.JStr? ==> r == j.s
    ensures j.JInt? ==> r == IntText(j.i)
    ensures j.JNull? ==> r == "None"
    ensures j.JBool? ==> r == (if j.b then "True" else "False")
  {
    if j.JStr? then j.s else Repr(j)
  }
}

/**
 * The two money formatters of the graphical front ends: the raylib
 * renderer writes an amount as "$" followed by its digits in groups of
 * three separated by commas; the older GUI renderer abbreviates large
 * amounts in crores ("Cr", ten million) and lakhs ("L", one hundred
 * thousand).
 */
module MoneyFormats {
  import opened Wrappers
  import opened Text

  const LAKH := 100000
  const CRORE := 10000000

  // ---------------------------------------------------------------------
  // Thousands separators.

  /** `t` cut into groups of three characters, each preceded by a comma. */
  function Groups(t: string): (r: string)
    requires |t| % 3 == 0
    ensures |r| == |t| + |t| / 3
    decreases |t|
  {
    if t == [] then [] else [','] + t[..3] + Groups(t[3..])
  }

  /** Length of the leading group: 1 to 3 characters for a non-empty string. */
  function LeadLength(n: nat): (h: nat)
    ensures h <= n && (n - h) % 3 == 0
    ensures n > 0 ==> 1 <= h <= 3
  {
    if n == 0 then 0 else (n - 1) % 3 + 1
  }

  /** `s` with a comma before every group of three characters counted from the right. */
  function WithCommas(s: string): string
  {
    var h := LeadLength(|s|);
    s[..h] + Groups(s[h..])
  }

  /** `s` with every `c` removed. */
  function Strip(s: string, c: char): (r: string)
    ensures Free(r, c)
  {
    if s == [] then [] else (if s[0] == c then [] else [s[0]]) + Strip(s[1..], c)
  }

  /**
   * `formatMoney` of the raylib renderer: `to_string(amount)` with the
   * commas of InsertCommas, then "$" in front.
   */
  method FormatMoney(amount: int) returns (r: string)
    ensures r == "$" + WithCommas(IntToString(amount))
  {
    var s := InsertCommas(IntToString(amount));
    r := "$" + s;
  }

  /**
   * The loop of `formatMoney`: a comma inserted at `length - 3`,
   * `length - 6`, ... while the position is positive. The position starts
   * below zero for strings shorter than three characters, as the `size_t`
   * difference converted to `int` does.
   */
  method InsertCommas(s0: string) returns (s: string)
    ensures s == WithCommas(s0)
  {
    s := s0;
    var insertPosition := |s| - 3;
    ghost var q: nat := |s0|;
    while insertPosition > 0
      invariant q == insertPosition + 3 && q <= |s0|
      invariant q == |s0| || 1 <= q
      invariant (|s0| - q) % 3 == 0
      invariant s == s0[..q] + Groups(s0[q..])
      decreases insertPosition
    {
      GroupsStep(s0, insertPosition);
      s := s[..insertPosition] + "," + s[insertPosition..];
      insertPosition := insertPosition - 3;
      q := q - 3;
    }
    LeadLengthUnique(|s0|, q);
  }

  lemma LeadLengthUnique(n: nat, q: nat)
    requires q <= n && q <= 3 && (q == n || 1 <= q) && (n - q) % 3 == 0
    ensures q == LeadLength(n)
  {
  }

  /** One insertion of the loop: a comma at `p` turns the grouped tail from `p + 3` into the grouped tail from `p`. */
  lemma GroupsStep(s0: string, p: int)
    requires 0 < p && p + 3 <= |s0| && (|s0| - (p + 3)) % 3 == 0
    ensures var s := s0[..p + 3] + Groups(s0[p + 3..]);
      s[..p] + "," + s[p..] == s0[..p] + Groups(s0[p..])
  {
    var s := s0[..p + 3] + Groups(s0[p + 3..]);
    var t := s0[p..];
    assert t[..3] == s0[p..p + 3];
    assert t[3..] == s0[p + 3..];
    assert Groups(t) == [','] + s0[p..p + 3] + Groups(s0[p + 3..]);
    assert s[..p] == s0[..p];
    assert s[p..] == s0[p..p + 3] + Groups(s0[p + 3..]);
  }

  lemma {:induction false} StripAppend(a: string, b: string, c: char)
    ensures Strip(a + b, c) == Strip(a, c) + Strip(b, c)
    decreases |a|
  {
    if a != [] {
      assert (a + b)[1..] == a[1..] + b;
      StripAppend(a[1..], b, c);
    } else {
      assert a + b == b;
    }
  }

  lemma {:induction false} StripFree(s: string, c: char)
    requires Free(s, c)
    ensures Strip(s, c) == s
    decreases |s|
  {
    if s != [] {
      StripFree(s[1..], c);
    }
  }

  lemma {:induction false} StripGroups(t: string)
    requires |t| % 3 == 0 && Free(t, ',')
    ensures Strip(Groups(t), ',') == t
    decreases |t|
  {
    if t != [] {
      StripAppend([','] + t[..3], Groups(t[3..]), ',');
      StripAppend([','], t[..3], ',');
      StripFree(t[..3], ',');
      StripGroups(t[3..]);
      assert t[..3] + t[3..] == t;
    }
  }

  /** Removing the commas gives back the original text. */
  lemma StripWithCommas(s: string)
    requires Free(s, ',')
    ensures Strip(WithCommas(s), ',') == s
  {
    var h := LeadLength(|s|);
    StripAppend(s[..h], Groups(s[h..]), ',');
    StripFree(s[..h], ',');
    StripGroups(s[h..]);
    assert s[..h] + s[h..] == s;
  }

  /** Removing "$" and the commas from `formatMoney(a)` gives `to_string(a)`. */
  lemma FormatMoneyDigits(a: int)
    ensures var r := "$" + WithCommas(IntToString(a));
      r[0] == '$' && Strip(r[1..], ',') == IntToString(a)
  {
    IntToStringFree(a, ',');
    var r := "$" + WithCommas(IntToString(a));
    assert r[1..] == WithCommas(IntToString(a));
    StripWithCommas(IntToString(a));
  }

  lemma {:induction false} CountGroups(t: string)
    requires |t| % 3 == 0 && Free(t, ',')
    ensures multiset(Groups(t))[','] == |t| / 3
    decreases |t|
  {
    if t != [] {
      CountGroups(t[3..]);
      assert Free(t[..3], ',') by {
        forall i | 0 <= i < 3 ensures t[..3][i] != ',' {
          assert t[..3][i] == t[i];
        }
      }
      assert multiset(t[..3])[','] == 0;
    }
  }

  /**
   * A comma-free text of `n` characters gets `(n - 1) / 3` commas, one per
   * full group of three after the leading group.
   */
  lemma CommaCount(s: string)
    requires s != [] && Free(s, ',')
    ensures multiset(WithCommas(s))[','] == (|s| - 1) / 3
  {
    var h := LeadLength(|s|);
    CountGroups(s[h..]);
    assert Free(s[..h], ',') by {
      forall i | 0 <= i < h ensures s[..h][i] != ',' {
        assert s[..h][i] == s[i];
      }
    }
    assert multiset(s[..h])[','] == 0;
  }

  lemma ShortDecimal(n: nat)
    requires n < 1000
    ensures |NatToString(n)| <= 3
  {
    if n >= 10 {
      if n >= 100 {
        assert NatToString(n / 10 / 10) == [DigitChar(n / 10 / 10)];
      }
    }
  }

  lemma DecimalStep(n: nat)
    requires n >= 10
    ensures |NatToString(n)| == |NatToString(n / 10)| + 1
  {
  }

  lemma LongDecimal(n: nat)
    requires n >= 1000
    ensures |NatToString(n)| >= 4
  {
    DecimalStep(n);
    DecimalStep(n / 10);
    DecimalStep(n / 10 / 10);
    NatToStringDigits(n / 10 / 10 / 10);
  }

  /** Amounts below one thousand get no comma at all. */
  lemma NoCommaBelowThousand(a: int)
    requires 0 <= a < 1000
    ensures WithCommas(IntToString(a)) == IntToString(a)
  {
    ShortDecimal(a);
  }

  /** From one thousand on there is at least one comma. */
  lemma CommaFromThousand(a: int)
    requires a >= 1000
    ensures ',' in WithCommas(IntToString(a))
  {
    LongDecimal(a);
    IntToStringFree(a, ',');
    CommaCount(IntToString(a));
  }

  /** Seven characters: a leading group of one, then two groups of three. */
  lemma SevenChars(s: string)
    requires |s| == 7
    ensures WithCommas(s) == [s[0], ',', s[1], s[2], s[3], ',', s[4], s[5], s[6]]
  {
    assert LeadLength(7) == 1;
    var t := s[1..];
    assert t[..3] == [s[1], s[2], s[3]];
    assert t[3..] == s[4..];
    assert s[4..][..3] == [s[4], s[5], s[6]] && s[4..][3..] == [];
    assert Groups(s[4..]) == [',', s[4], s[5], s[6]];
  }

  lemma OneMillion()
    ensures "$" + WithCommas(IntToString(1000000)) == "$1,000,000"
  {
    assert NatToString(10) == "10";
    assert NatToString(100) == "100";
    assert NatToString(1000) == "1000";
    assert NatToString(10000) == "10000";
    assert NatToString(100000) == "100000";
    assert NatToString(1000000) == "1000000";
    SevenChars("1000000");
  }

  /**
   * A negative amount whose digit count is a multiple of three gets a
   * comma straight after the minus sign, since the sign is counted as
   * one more character.
   */
  lemma NegativeSixDigits()
    ensures WithCommas(IntToString(-123456)) == "-,123,456"
  {
    assert NatToString(12) == "12";
    assert NatToString(123) == "123";
    assert NatToString(1234) == "1234";
    assert NatToString(12345) == "12345";
    assert NatToString(123456) == "123456";
    assert IntToString(-123456) == "-123456";
    SevenChars("-123456");
  }

  // ---------------------------------------------------------------------
  // Crore / lakh abbreviation.

  /**
   * `formatMoney` of the GUI renderer: whole crores with "Cr" from ten
   * million on, whole lakhs with "L" from one hundred thousand on, the
   * plain digits below that. The divisions only see non-negative values,
   * so Dafny's `/` agrees with C++'s truncating one.
   */
  function FormatMoneyShort(amount: int): (r: string)
    ensures r != []
  {
    IntToStringFree(amount, 'C');
    if amount >= CRORE then IntToString(amount / CRORE) + "Cr"
    else if amount >= LAKH then IntToString(amount / LAKH) + "L"
    else IntToString(amount)
  }

  lemma {:induction false} DigitRunThen(d: string, t: string)
    requires forall i :: 0 <= i < |d| ==> IsDigit(d[i])
    requires t == [] || !IsDigit(t[0])
    ensures DigitRun(d + t) == |d|
    decreases |d|
  {
    if d == [] {
      assert d + t == t;
    } else {
      assert (d + t)[1..] == d[1..] + t;
      DigitRunThen(d[1..], t);
    }
  }

  /** `stoi` reads the number back from a decimal text followed by a letter. */
  lemma ParseNumberThen(n: nat, t: string)
    requires t != [] && !IsDigit(t[0])
    ensures ParseInt(NatToString(n) + t) == Some(n)
  {
    NatToStringDigits(n);
    var d := NatToString(n);
    DigitRunThen(d, t);
    assert (d + t)[0] == d[0] && !IsSpace(d[0]) && d[0] != '-' && d[0] != '+';
    assert DropSpace(d + t) == d + t;
    assert (d + t)[..|d|] == d;
  }

  /**
   * What the abbreviated text says: reading its number back with `stoi`
   * gives the amount in the unit the suffix names, rounded down, so the
   * amount lies between that many units and one unit more; below a lakh
   * the text is the exact amount.
   */
  lemma FormatMoneyShortReadBack(amount: int)
    ensures var r := FormatMoneyShort(amount);
      ParseInt(r).Some? &&
      var v := ParseInt(r).value;
      if amount >= CRORE then
        r == IntToString(v) + "Cr" && v >= 1 && v * CRORE <= amount < v * CRORE + CRORE
      else if amount >= LAKH then
        r == IntToString(v) + "L" && 1 <= v < 100 && v * LAKH <= amount < v * LAKH + LAKH
      else
        r == IntToString(amount) && v == amount
  {
    if amount >= CRORE {
      ParseNumberThen(amount / CRORE, "Cr");
    } else if amount >= LAKH {
      ParseNumberThen(amount / LAKH, "L");
    } else {
      ParseIntOfIntToString(amount);
    }
  }

  lemma ShortExamples()
    ensures FormatMoneyShort(50000000) == "5Cr"
    ensures FormatMoneyShort(1250000) == "12L"
    ensures FormatMoneyShort(99999) == "99999"
  {
    assert IntToString(5) == "5";
    assert IntToString(12) == "12";
    assert NatToString(99999) == "99999";
  }
}

/**
 * Character-level helpers shared by every loader and saver of the game:
 * `std::getline`-style tokenising, joining fields with a delimiter, and the
 * `std::to_string` / `std::stoi` pair on integers.
 *
 * A file is modelled by its whole contents as a string; `getline(file, line)`
 * yields `Tokens(contents, '\n')` and `getline(ss, token, '|')` yields
 * `Tokens(line, '|')`.
 */
module Text {
  import opened Wrappers

  /** Position of the first `d` in `s`, or `|s|` when there is none. */
  function IndexOf(s: string, d: char): (k: nat)
    ensures k <= |s|
    ensures k < |s| ==> s[k] == d
    ensures forall i :: 0 <= i < k ==> s[i] != d
  {
    if |s| == 0 then 0 else if s[0] == d then 0 else 1 + IndexOf(s[1..], d)
  }

  /** Any position meeting the three conditions of IndexOf's contract is IndexOf itself. */
  lemma IndexOfUnique(s: string, d: char, k: nat)
    requires k <= |s|
    requires k < |s| ==> s[k] == d
    requires forall i :: 0 <= i < k ==> s[i] != d
    ensures IndexOf(s, d) == k
  {
  }

  /**
   * The tokens `getline(stream, token, d)` produces, read until the end of
   * the stream: an empty stream gives no token, and a delimiter at the
   * very end does not start a further (empty) token.
   */
  function Tokens(s: string, d: char): seq<string>
    decreases |s|
  {
    if |s| == 0 then []
    else
      var e := IndexOf(s, d);
      if e == |s| then [s] else [s[..e]] + Tokens(s[e + 1..], d)
  }

  /** `fields` written one after another with `d` between neighbours. */
  function Join(fields: seq<string>, d: char): string
  {
    if |fields| == 0 then []
    else if |fields| == 1 then fields[0]
    else fields[0] + [d] + Join(fields[1..], d)
  }

  /** `lines` written one after another, each followed by a newline, as `file << line << "\n"` does. */
  function Unlines(lines: seq<string>): string
  {
    if |lines| == 0 then [] else lines[0] + "\n" + Unlines(lines[1..])
  }

  predicate Free(s: string, d: char)
  {
    forall i :: 0 <= i < |s| ==> s[i] != d
  }

  predicate AllFree(fields: seq<string>, d: char)
  {
    forall k :: 0 <= k < |fields| ==> Free(fields[k], d)
  }

  /** Reading the token stream back out of joined fields gives back the fields, as long as none holds `d` and the last is not empty. */
  lemma {:induction false} TokensOfJoin(fields: seq<string>, d: char)
    requires AllFree(fields, d)
    requires fields != [] ==> fields[|fields| - 1] != []
    ensures Tokens(Join(fields, d), d) == fields
  {
    if |fields| == 1 {
      IndexOfUnique(fields[0], d, |fields[0]|);
    } else if |fields| > 1 {
      var s := Join(fields, d);
      var f := fields[0];
      assert s == f + [d] + Join(fields[1..], d);
      IndexOfUnique(s, d, |f|);
      assert s[..|f|] == f;
      assert s[|f| + 1..] == Join(fields[1..], d);
      TokensOfJoin(fields[1..], d);
    }
  }

  /** Joined fields free of `c` give a line free of `c`, and two or more fields never join to the empty line. */
  lemma {:induction false} JoinFree(fields: seq<string>, d: char, c: char)
    requires AllFree(fields, c) && d != c
    ensures Free(Join(fields, d), c)
    ensures |fields| >= 2 ==> Join(fields, d) != []
  {
    if |fields| > 1 {
      JoinFree(fields[1..], d, c);
      assert Join(fields, d) == fields[0] + [d] + Join(fields[1..], d);
    }
  }

  /** A non-empty sequence is its front followed by its last element, and is its own longest prefix. */
  lemma LastSplit<T>(s: seq<T>)
    requires |s| > 0
    ensures s[..|s|] == s && s == s[..|s| - 1] + [s[|s| - 1]]
  {
  }

  /** Reading the lines back out of a saved file gives back the saved lines, empty ones included. */
  lemma {:induction false} TokensOfUnlines(lines: seq<string>)
    requires AllFree(lines, '\n')
    ensures Tokens(Unlines(lines), '\n') == lines
  {
    if lines != [] {
      var s := Unlines(lines);
      var l := lines[0];
      assert s == l + "\n" + Unlines(lines[1..]);
      IndexOfUnique(s, '\n', |l|);
      assert s[..|l|] == l;
      assert s[|l| + 1..] == Unlines(lines[1..]);
      TokensOfUnlines(lines[1..]);
    }
  }

  /** One turn of the tokenising loop: the token starting at `start` ends at `e`. */
  lemma TokensStep(s: string, d: char, start: nat, e: nat)
    requires start < |s| && start <= e <= |s|
    requires e < |s| ==> s[e] == d
    requires forall i :: start <= i < e ==> s[i] != d
    ensures Tokens(s[start..], d)
            == [s[start..e]] + (if e < |s| then Tokens(s[e + 1..], d) else [])
  {
    var rest := s[start..];
    IndexOfUnique(rest, d, e - start);
    assert rest[..e - start] == s[start..e];
    if e < |s| {
      assert rest[e - start + 1..] == s[e + 1..];
      assert Tokens(rest, d) == [rest[..e - start]] + Tokens(rest[e - start + 1..], d);
      assert Tokens(rest, d) == [s[start..e]] + Tokens(s[e + 1..], d);
    } else {
      assert Tokens(rest, d) == [rest];
      assert rest == s[start..e];
      assert [s[start..e]] + [] == [rest];
    }
  }

  lemma Assoc<T>(x: seq<T>, y: seq<T>, z: seq<T>)
    ensures (x + y) + z == x + (y + z)
  {
  }

  lemma SplitAt<T>(s: seq<T>, m: nat)
    requires m <= |s|
    ensures s[..m] + s[m..] == s && multiset(s[..m]) + multiset(s[m..]) == multiset(s)
  {
    assert s[..m] + s[m..] == s;
  }

  lemma Extensional<T>(s: seq<T>, t: seq<T>)
    requires |s| == |t| && forall i :: 0 <= i < |s| ==> s[i] == t[i]
    ensures s == t
  {
  }

  /**
   * The `while (getline(ss, token, d)) tokens.push_back(token);` loop that
   * every loader of the game runs.
   */
  method ReadTokens(s: string, d: char) returns (tokens: seq<string>)
    ensures tokens == Tokens(s, d)
  {
    tokens := [];
    var start := 0;
    while start < |s|
      invariant 0 <= start <= |s|
      invariant tokens + Tokens(s[start..], d) == Tokens(s, d)
      decreases |s| - start
    {
      var e := start;
      while e < |s| && s[e] != d
        invariant start <= e <= |s|
        invariant forall i :: start <= i < e ==> s[i] != d
      {
        e := e + 1;
      }
      TokensStep(s, d, start, e);
      ghost var rest := if e < |s| then Tokens(s[e + 1..], d) else [];
      Assoc(tokens, [s[start..e]], rest);
      tokens := tokens + [s[start..e]];
      start := if e < |s| then e + 1 else e;
      assert rest == Tokens(s[start..], d);
    }
  }

  // ---------------------------------------------------------------------
  // Integers as text.

  predicate IsDigit(c: char) { '0' <= c <= '9' }

  predicate IsSpace(c: char)
  {
    c == ' ' || c == '\t' || c == '\n' || c == '\r' || c == '\U{0B}' || c == '\U{0C}'
  }

  function DigitChar(n: nat): (c: char)
    requires n < 10
    ensures IsDigit(c)
  {
    ('0' as int + n) as char
  }

  /** decimal digits of `n`, most significant first, as `std::to_string` writes them. */
  function NatToString(n: nat): (s: string)
    decreases n
  {
    if n < 10 then [DigitChar(n)] else NatToString(n / 10) + [DigitChar(n % 10)]
  }

  /** `std::to_string` on an integer. */
  function IntToString(n: int): string
  {
    if n < 0 then "-" + NatToString(-n) else NatToString(n)
  }

  /** The value of a string of decimal digits. */
  function DigitsValue(s: string): nat
    requires forall i :: 0 <= i < |s| ==> IsDigit(s[i])
  {
    if |s| == 0 then 0 else 10 * DigitsValue(s[..|s| - 1]) + DigitValue(s[|s| - 1])
  }

  function DigitValue(c: char): (v: nat)
    requires IsDigit(c)
    ensures v < 10
  {
    c as int - '0' as int
  }

  /** Length of the longest prefix of `s` made of digits. */
  function DigitRun(s: string): (k: nat)
    ensures k <= |s|
    ensures forall i :: 0 <= i < k ==> IsDigit(s[i])
    ensures k < |s| ==> !IsDigit(s[k])
  {
    if s == [] || !IsDigit(s[0]) then 0 else 1 + DigitRun(s[1..])
  }

  function DropSpace(s: string): string
  {
    if s != [] && IsSpace(s[0]) then DropSpace(s[1..]) else s
  }

  /**
   * `std::stoi` / `std::stoll`: leading white space is skipped, an optional
   * sign is read, then the longest run of digits; the rest of the string is
   * ignored. `None` stands for the `invalid_argument` exception thrown when
   * no digit follows.
   */
  function ParseInt(s: string): Option<int>
  {
    var t := DropSpace(s);
    var neg := t != [] && t[0] == '-';
    var u := if t != [] && (t[0] == '-' || t[0] == '+') then t[1..] else t;
    var k := DigitRun(u);
    if k == 0 then None
    else
      var v: int := DigitsValue(u[..k]);
      Some(if neg then -v else v)
  }

  lemma {:induction false} NatToStringDigits(n: nat)
    ensures NatToString(n) != []
    ensures forall i :: 0 <= i < |NatToString(n)| ==> IsDigit(NatToString(n)[i])
    ensures DigitsValue(NatToString(n)) == n
    decreases n
  {
    if n >= 10 {
      NatToStringDigits(n / 10);
      var s := NatToString(n);
      assert s[..|s| - 1] == NatToString(n / 10);
    }
  }

  lemma AllDigitsRun(s: string)
    requires forall i :: 0 <= i < |s| ==> IsDigit(s[i])
    ensures DigitRun(s) == |s|
  {
  }

  /** `stoi` on a non-empty run of digits reads its value. */
  lemma ParseUnsigned(d: string)
    requires d != [] && IsDigit(d[0]) && DigitRun(d) == |d|
    ensures ParseInt(d) == Some(DigitsValue(d[..|d|]) as int)
  {
    assert !IsSpace(d[0]) && d[0] != '-' && d[0] != '+';
    assert DropSpace(d) == d;
  }

  lemma ParseMinusAny(t: string)
    requires t != [] && t[0] == '-'
    ensures ParseInt(t) == (var k := DigitRun(t[1..]); if k == 0 then None else Some(-(DigitsValue(t[1..][..k]) as int)))
  {
    assert DropSpace(t) == t;
  }

  /** `std::stoi(std::to_string(n)) == n`. */
  lemma ParseIntOfIntToString(n: int)
    ensures ParseInt(IntToString(n)) == Some(n)
  {
    if n < 0 {
      ParseNegativeToString(n);
    } else {
      NatToStringDigits(n);
      var d := NatToString(n);
      AllDigitsRun(d);
      assert d[..|d|] == d;
      ParseUnsigned(d);
    }
  }

  lemma ParseNegativeToString(n: int)
    requires n < 0
    ensures ParseInt(IntToString(n)) == Some(n)
  {
    NatToStringDigits(-n);
    var d := NatToString(-n);
    AllDigitsRun(d);
    assert d[..|d|] == d;
    var s := IntToString(n);
    assert s[1..] == d;
    ParseMinusAny(s);
  }

  lemma IntToStringFree(n: int, d: char)
    requires !IsDigit(d) && d != '-'
    ensures Free(IntToString(n), d) && IntToString(n) != []
  {
    NatToStringDigits(if n < 0 then -n else n);
  }
}

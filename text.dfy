/** The JavaScript string built-ins the core relies on: `toLowerCase`
    (restricted to ASCII), `trim`, `includes`, and `parseInt(s, 10)`, with
    the decimal rendering of integers as their partner. */
module Text {
  import opened Wrappers

  predicate IsUpper(c: char) { 'A' <= c <= 'Z' }

  predicate IsLowerOrDigit(c: char) { 'a' <= c <= 'z' || '0' <= c <= '9' }

  predicate IsDigit(c: char) { '0' <= c <= '9' }

  /** ECMAScript WhiteSpace and LineTerminator code points, the set that
      `trim` and `parseInt` skip. */
  predicate IsSpace(c: char) {
    var u := c as int;
    || 0x09 <= u <= 0x0D || u == 0x20 || u == 0xA0 || u == 0x1680
    || 0x2000 <= u <= 0x200A || u == 0x2028 || u == 0x2029 || u == 0x202F
    || u == 0x205F || u == 0x3000 || u == 0xFEFF
  }

  function LowerChar(c: char): (r: char)
    ensures !IsUpper(r)
    ensures !IsUpper(c) ==> r == c
  {
    if IsUpper(c) then (c as int + 32) as char else c
  }

  /** `toLowerCase` on the ASCII letters; every other character is kept. */
  function Lower(s: string): (r: string)
    ensures |r| == |s|
    ensures forall i :: 0 <= i < |s| ==> r[i] == LowerChar(s[i])
  {
    if s == [] then [] else [LowerChar(s[0])] + Lower(s[1..])
  }

  lemma {:induction false} LowerIdempotent(s: string)
    ensures Lower(Lower(s)) == Lower(s)
  {
    var l := Lower(s);
    assert |Lower(l)| == |l|;
    forall i | 0 <= i < |l| ensures Lower(l)[i] == l[i] {
      assert !IsUpper(l[i]);
    }
  }

  /** `String.prototype.includes`: `q` occurs in `s` as a contiguous piece. */
  predicate Contains(s: string, q: string) {
    exists i :: 0 <= i <= |s| && OccursAt(s, q, i)
  }

  predicate OccursAt(s: string, q: string, i: nat) {
    i + |q| <= |s| && s[i..i + |q|] == q
  }

  function TrimStart(s: string): (r: string)
    ensures |r| <= |s| && r == s[|s| - |r|..]
    ensures r == [] || !IsSpace(r[0])
    ensures forall i :: 0 <= i < |s| - |r| ==> IsSpace(s[i])
  {
    if s != [] && IsSpace(s[0]) then
      var r := TrimStart(s[1..]);
      assert forall i :: 1 <= i < |s| - |r| ==> s[i] == s[1..][i - 1];
      r
    else s
  }

  function TrimEnd(s: string): (r: string)
    ensures |r| <= |s| && r == s[..|r|]
    ensures r == [] || !IsSpace(r[|r| - 1])
    ensures forall i :: |r| <= i < |s| ==> IsSpace(s[i])
  {
    if s != [] && IsSpace(s[|s| - 1]) then
      var r := TrimEnd(s[..|s| - 1]);
      assert forall i :: |r| <= i < |s| - 1 ==> s[i] == s[..|s| - 1][i];
      r
    else s
  }

  /** `r` is the piece of `s` that starts at `k`, with nothing but white
      space before it and after it. */
  predicate Framed(s: string, r: string, k: nat) {
    && OccursAt(s, r, k)
    && (forall i :: 0 <= i < k ==> IsSpace(s[i]))
    && (forall i :: k + |r| <= i < |s| ==> IsSpace(s[i]))
  }

  /** `String.prototype.trim`: drop the leading and the trailing white space. */
  function Trim(s: string): (r: string)
    ensures Contains(s, r)
    ensures exists k :: Framed(s, r, k)
    ensures r == [] || (!IsSpace(r[0]) && !IsSpace(r[|r| - 1]))
  {
    TrimFramed(s);
    TrimEnd(TrimStart(s))
  }

  lemma TrimFramed(s: string)
    ensures Framed(s, TrimEnd(TrimStart(s)), |s| - |TrimStart(s)|)
  {
    var t := TrimStart(s);
    var r := TrimEnd(t);
    var k := |s| - |t|;
    PieceOfSuffix(s, t, r, k);
    forall i | k + |r| <= i < |s|
      ensures IsSpace(s[i])
    {
      assert s[i] == t[i - k];
    }
  }

  lemma PieceOfSuffix(s: string, t: string, r: string, k: nat)
    requires k <= |s| && t == s[k..] && |r| <= |t| && r == t[..|r|]
    ensures OccursAt(s, r, k)
    ensures forall i :: k <= i < |s| ==> s[i] == t[i - k]
  {
    assert s[k..k + |r|] == t[..|r|];
  }

  /** The white-space frame determines the trimmed piece: a piece of `s`
      that neither starts nor ends with white space and has only white
      space around it is `Trim(s)`, and so is the empty piece of a string
      that is all white space. */
  lemma TrimUnique(s: string, q: string, k: nat)
    requires Framed(s, q, k)
    requires q == [] || (!IsSpace(q[0]) && !IsSpace(q[|q| - 1]))
    ensures Trim(s) == q
  {
    var r := Trim(s);
    var j: nat :| Framed(s, r, j);
    assert s[j..j + |r|] == r && s[k..k + |q|] == q;
    if q == [] {
      if r != [] {
        assert false;
      }
    } else {
      assert s[k] == q[0] && s[k + |q| - 1] == q[|q| - 1];
      if r == [] {
        assert false;
      }
      assert s[j] == r[0] && s[j + |r| - 1] == r[|r| - 1];
      assert j == k;
      assert |r| == |q|;
    }
  }

  lemma TrimStartNoSpace(s: string)
    requires s == [] || !IsSpace(s[0])
    ensures TrimStart(s) == s
  {
  }

  lemma {:induction false} TrimEndNoSpace(s: string)
    requires s == [] || !IsSpace(s[|s| - 1])
    ensures TrimEnd(s) == s
  {
  }

  lemma TrimIdempotent(s: string)
    ensures Trim(Trim(s)) == Trim(s)
  {
    var r := Trim(s);
    TrimStartNoSpace(r);
    TrimEndNoSpace(r);
  }

  // ---- parseInt(s, 10) ----

  function DigitValue(c: char): (d: nat)
    requires IsDigit(c)
    ensures d < 10
  {
    c as int - '0' as int
  }

  function DigitChar(d: nat): (c: char)
    requires d < 10
    ensures IsDigit(c) && DigitValue(c) == d
  {
    ('0' as int + d) as char
  }

  /** The longest prefix of `s` made of decimal digits. */
  function DigitPrefix(s: string): (r: string)
    ensures |r| <= |s| && r == s[..|r|]
    ensures forall i :: 0 <= i < |r| ==> IsDigit(r[i])
    ensures |r| < |s| ==> !IsDigit(s[|r|])
  {
    if s != [] && IsDigit(s[0]) then [s[0]] + DigitPrefix(s[1..]) else []
  }

  /** The value of a string of decimal digits, most significant first. */
  function DigitsValue(d: string): nat
    requires forall i :: 0 <= i < |d| ==> IsDigit(d[i])
  {
    if d == [] then 0 else 10 * DigitsValue(d[..|d| - 1]) + DigitValue(d[|d| - 1])
  }

  /** `parseInt(s, 10)`: skip leading white space, take one optional sign,
      then the longest run of digits; `None` stands for `NaN` (no digits). */
  function ParseInt(s: string): (r: Option<int>)
    ensures r.None? <==> DigitPrefix(SkipSign(TrimStart(s))) == []
  {
    var t := TrimStart(s);
    var d := DigitPrefix(SkipSign(t));
    if d == [] then None
    else if t[0] == '-' then Some(-(DigitsValue(d) as int))
    else Some(DigitsValue(d))
  }

  function SkipSign(t: string): (u: string)
    ensures |u| <= |t|
  {
    if t != [] && (t[0] == '-' || t[0] == '+') then t[1..] else t
  }

  /** Decimal rendering of a natural number, without leading zeros. */
  function ShowNat(n: nat): (r: string)
    ensures |r| >= 1
    ensures forall i :: 0 <= i < |r| ==> IsDigit(r[i])
  {
    if n < 10 then [DigitChar(n)] else ShowNat(n / 10) + [DigitChar(n % 10)]
  }

  /** Decimal rendering of an integer, as `String(n)` gives it. */
  function Show(n: int): (r: string)
    ensures |r| >= 1
  {
    if n < 0 then "-" + ShowNat(-n) else ShowNat(n)
  }

  lemma {:induction false} ShowNatValue(n: nat)
    ensures DigitsValue(ShowNat(n)) == n
  {
    if n >= 10 {
      var s := ShowNat(n);
      assert s[..|s| - 1] == ShowNat(n / 10);
      ShowNatValue(n / 10);
    }
  }

  lemma {:induction false} DigitPrefixOfDigits(s: string)
    requires forall i :: 0 <= i < |s| ==> IsDigit(s[i])
    ensures DigitPrefix(s) == s
  {
    if s != [] {
      DigitPrefixOfDigits(s[1..]);
    }
  }

  lemma {:induction false} TrimStartSpaces(ws: string, x: string)
    requires forall i :: 0 <= i < |ws| ==> IsSpace(ws[i])
    requires x == [] || !IsSpace(x[0])
    ensures TrimStart(ws + x) == x
  {
    if ws == [] {
      assert ws + x == x;
      TrimStartNoSpace(x);
    } else {
      assert (ws + x)[1..] == ws[1..] + x;
      TrimStartSpaces(ws[1..], x);
    }
  }

  lemma {:induction false} DigitPrefixStops(digits: string, rest: string)
    requires forall i :: 0 <= i < |digits| ==> IsDigit(digits[i])
    requires rest == [] || !IsDigit(rest[0])
    ensures DigitPrefix(digits + rest) == digits
  {
    if digits != [] {
      assert (digits + rest)[1..] == digits[1..] + rest;
      DigitPrefixStops(digits[1..], rest);
    } else {
      assert digits + rest == rest;
    }
  }

  /** `parseInt(ws + sign + digits + rest, 10)`: the leading white space is
      skipped, the sign is applied, and whatever follows the digits is
      ignored. */
  lemma ParseIntReads(ws: string, sign: string, digits: string, rest: string)
    requires forall i :: 0 <= i < |ws| ==> IsSpace(ws[i])
    requires sign == [] || sign == ['-'] || sign == ['+']
    requires digits != [] && forall i :: 0 <= i < |digits| ==> IsDigit(digits[i])
    requires rest == [] || !IsDigit(rest[0])
    ensures ParseInt(ws + sign + digits + rest) ==
              Some(if sign == ['-'] then -(DigitsValue(digits) as int) else DigitsValue(digits))
  {
    var x := sign + digits + rest;
    Regroup(ws, sign, digits, rest);
    SignedStart(sign, digits, rest);
    TrimStartSpaces(ws, x);
    DigitPrefixStops(digits, rest);
    ParseIntFrom(ws + x, digits + rest, digits);
  }

  lemma ParseIntFrom(s: string, u: string, digits: string)
    requires TrimStart(s) != [] && SkipSign(TrimStart(s)) == u
    requires DigitPrefix(u) == digits && digits != []
    ensures ParseInt(s) ==
              Some(if TrimStart(s)[0] == '-' then -(DigitsValue(digits) as int) else DigitsValue(digits))
  {
  }

  lemma Regroup(a: string, b: string, c: string, d: string)
    ensures a + b + c + d == a + (b + c + d)
  {
  }

  lemma SignedStart(sign: string, digits: string, rest: string)
    requires sign == [] || sign == ['-'] || sign == ['+']
    requires digits != [] && IsDigit(digits[0])
    ensures var x := sign + digits + rest;
      && !IsSpace(x[0])
      && SkipSign(x) == digits + rest
      && (x[0] == '-' <==> sign == ['-'])
  {
    var x := sign + digits + rest;
    if sign == [] {
      assert x == digits + rest;
    } else {
      assert x[0] == sign[0];
      assert x[1..] == digits + rest;
    }
  }

  /** Leading zeros do not change the value of a string of digits. */
  lemma {:induction false} LeadingZeros(zeros: string, d: string)
    requires forall i :: 0 <= i < |zeros| ==> zeros[i] == '0'
    requires forall i :: 0 <= i < |d| ==> IsDigit(d[i])
    ensures DigitsValue(zeros + d) == DigitsValue(d)
  {
    if d == [] {
      assert zeros + d == zeros;
      ZerosValue(zeros);
    } else {
      assert (zeros + d)[..|zeros + d| - 1] == zeros + d[..|d| - 1];
      LeadingZeros(zeros, d[..|d| - 1]);
    }
  }

  lemma {:induction false} ZerosValue(zeros: string)
    requires forall i :: 0 <= i < |zeros| ==> zeros[i] == '0'
    ensures DigitsValue(zeros) == 0
  {
    if zeros != [] {
      ZerosValue(zeros[..|zeros| - 1]);
    }
  }

  /** Typing the decimal form of `n` parses back to `n`. */
  lemma ParseShow(n: int)
    ensures ParseInt(Show(n)) == Some(n)
  {
    var s := Show(n);
    var m: nat := if n < 0 then -n else n;
    var d := ShowNat(m);
    assert IsDigit(d[0]);
    assert s[0] == '-' || s[0] == d[0];
    assert !IsSpace(s[0]);
    TrimStartNoSpace(s);
    assert SkipSign(s) == d;
    DigitPrefixOfDigits(d);
    ShowNatValue(m);
  }
}

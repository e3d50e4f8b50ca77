/** The text-to-number conversion `pd.to_numeric` applies to each string of an
    object column: surrounding white space is ignored, then an optional sign,
    decimal digits with an optional fraction, and an optional exponent.
    Anything else (including the blank strings the Telco data uses for a
    missing TotalCharges) is not a number, which `errors='coerce'` turns into
    a missing value. */
module NumberText {
  import opened Common

  predicate IsDigit(c: char)
  {
    '0' <= c <= '9'
  }

  /** The ASCII white space the C-locale `isspace` recognises: blank, tab,
      line feed, vertical tab, form feed, carriage return. */
  predicate IsSpace(c: char)
  {
    c == ' ' || c == '\t' || c == '\n' || c == '\U{000B}' || c == '\U{000C}' || c == '\r'
  }

  predicate AllDigits(s: string)
  {
    forall i :: 0 <= i < |s| ==> IsDigit(s[i])
  }

  predicate AllSpace(s: string)
  {
    forall i :: 0 <= i < |s| ==> IsSpace(s[i])
  }

  /** s holds at least one decimal digit. */
  predicate HasDigit(s: string)
  {
    exists i :: 0 <= i < |s| && IsDigit(s[i])
  }

  function DigitValue(c: char): nat
    requires IsDigit(c)
  {
    c as int - '0' as int
  }

  /** The value of a run of decimal digits, most significant first. */
  function DigitsValue(s: string): nat
    requires AllDigits(s)
  {
    if |s| == 0 then 0 else 10 * DigitsValue(s[..|s| - 1]) + DigitValue(s[|s| - 1])
  }

  /** The value of the digits after a decimal point: ".25" is 0.25. */
  function FractionValue(s: string): real
    requires AllDigits(s)
  {
    if |s| == 0 then 0.0 else (DigitValue(s[0]) as real + FractionValue(s[1..])) / 10.0
  }

  // ---------------------------------------------------------------------
  // Scanning

  /** s without its leading white space. */
  function TrimStart(s: string): (r: string)
    ensures |r| <= |s| && r == s[|s| - |r|..]
    ensures |r| == 0 || !IsSpace(r[0])
  {
    if |s| == 0 || !IsSpace(s[0]) then s else TrimStart(s[1..])
  }

  /** s without its trailing white space. */
  function TrimEnd(s: string): (r: string)
    ensures |r| <= |s| && r == s[..|r|]
    ensures |r| == 0 || !IsSpace(r[|r| - 1])
  {
    if |s| == 0 || !IsSpace(s[|s| - 1]) then s else TrimEnd(s[..|s| - 1])
  }

  function Trim(s: string): string
  {
    TrimEnd(TrimStart(s))
  }

  /** Position of the first '.', or |s| when there is none. */
  function DotAt(s: string): (k: nat)
    ensures k <= |s|
    ensures forall i :: 0 <= i < k ==> s[i] != '.'
    ensures k < |s| ==> s[k] == '.'
  {
    if |s| == 0 || s[0] == '.' then 0 else 1 + DotAt(s[1..])
  }

  /** Position of the first exponent marker, or |s| when there is none. */
  function ExpAt(s: string): (k: nat)
    ensures k <= |s|
    ensures forall i :: 0 <= i < k ==> s[i] != 'e' && s[i] != 'E'
    ensures k < |s| ==> s[k] == 'e' || s[k] == 'E'
  {
    if |s| == 0 || s[0] == 'e' || s[0] == 'E' then 0 else 1 + ExpAt(s[1..])
  }

  // ---------------------------------------------------------------------
  // Parsing

  /** Digits with an optional fractional part: "12", "12.5", "12.", ".5". */
  function ParseMantissa(s: string): Option<real>
  {
    var d := DotAt(s);
    var whole := s[..d];
    var frac := if d < |s| then s[d + 1..] else "";
    if AllDigits(whole) && AllDigits(frac) && |whole| + |frac| > 0 then
      Some(DigitsValue(whole) as real + FractionValue(frac))
    else None
  }

  /** An exponent: optional sign, then at least one digit. */
  function ParseExponent(s: string): Option<int>
  {
    var negative := |s| > 0 && s[0] == '-';
    var digits := if |s| > 0 && (s[0] == '-' || s[0] == '+') then s[1..] else s;
    if |digits| > 0 && AllDigits(digits) then
      Some(if negative then -(DigitsValue(digits) as int) else DigitsValue(digits))
    else None
  }

  /** m * 10^e. */
  function TimesPow10(m: real, e: int): real
    decreases if e >= 0 then e else -e
  {
    if e == 0 then m
    else if e > 0 then TimesPow10(m * 10.0, e - 1)
    else TimesPow10(m / 10.0, e + 1)
  }

  function ParseUnsigned(s: string): Option<real>
  {
    var k := ExpAt(s);
    match ParseMantissa(s[..k])
    case None => None
    case Some(m) =>
      if k == |s| then Some(m)
      else
        match ParseExponent(s[k + 1..])
        case None => None
        case Some(e) => Some(TimesPow10(m, e))
  }

  /** The number a string denotes, or None when it is not one.  Blank
      strings, such as the " " entries of TotalCharges, are not numbers, and
      every string read as a number holds a digit. */
  function ParseNumber(s: string): (r: Option<real>)
    ensures AllSpace(s) ==> r.None?
    ensures r.Some? ==> HasDigit(s)
  {
    BlankTrimsAway(s);
    assert ParseMantissa([]) == None;
    ParsedHasDigit(Trim(s));
    TrimKeepsDigits(s);
    ParseTrimmed(Trim(s))
  }

  /** A parsed number was spelled with at least one digit. */
  lemma ParsedHasDigit(t: string)
    ensures ParseTrimmed(t).Some? ==> HasDigit(t)
  {
    if ParseTrimmed(t).Some? {
      var signed := |t| > 0 && (t[0] == '-' || t[0] == '+');
      var u := if signed then t[1..] else t;
      assert ParseUnsigned(u).Some?;
      var m := u[..ExpAt(u)];
      assert ParseMantissa(m).Some?;
      var d := DotAt(m);
      var j := if d > 0 then 0 else d + 1;
      assert IsDigit(m[j]) by {
        if d > 0 {
          assert m[..d][0] == m[0];
        } else {
          assert m[d + 1..][0] == m[d + 1];
        }
      }
      assert u[j] == m[j];
      if signed {
        assert t[j + 1] == u[j];
      }
    }
  }

  /** Trimming only removes white space, never a digit it could have. */
  lemma TrimKeepsDigits(s: string)
    ensures HasDigit(Trim(s)) ==> HasDigit(s)
  {
    var a := TrimStart(s);
    var t := TrimEnd(a);
    if HasDigit(t) {
      assert t == a[0..|t|];
      DigitInSlice(a, 0, |t|);
      assert a == s[|s| - |a|..|s|];
      DigitInSlice(s, |s| - |a|, |s|);
    }
  }

  lemma DigitInSlice(s: string, lo: nat, hi: nat)
    requires lo <= hi <= |s| && HasDigit(s[lo..hi])
    ensures HasDigit(s)
  {
    var i :| 0 <= i < hi - lo && IsDigit(s[lo..hi][i]);
    assert s[lo + i] == s[lo..hi][i];
  }

  function ParseTrimmed(t: string): Option<real>
  {
    if |t| > 0 && t[0] == '-' then
      match ParseUnsigned(t[1..])
      case None => None
      case Some(v) => Some(-v)
    else if |t| > 0 && t[0] == '+' then ParseUnsigned(t[1..])
    else ParseUnsigned(t)
  }

  // ---------------------------------------------------------------------
  // Rendering, the partner of parsing

  function DigitChar(d: nat): (c: char)
    requires d < 10
    ensures IsDigit(c) && DigitValue(c) == d
  {
    ('0' as int + d) as char
  }

  /** The decimal digits of n, as `str(n)` writes them. */
  function NatText(n: nat): (s: string)
    ensures |s| > 0 && AllDigits(s)
  {
    if n < 10 then [DigitChar(n)] else NatText(n / 10) + [DigitChar(n % 10)]
  }

  lemma {:induction false} NatTextValue(n: nat)
    ensures DigitsValue(NatText(n)) == n
  {
    if n >= 10 {
      var s := NatText(n);
      NatTextValue(n / 10);
      assert s[..|s| - 1] == NatText(n / 10);
    }
  }

  predicate Plain(s: string)
  {
    forall i :: 0 <= i < |s| ==> IsDigit(s[i]) || s[i] == '.'
  }

  /** A string of digits and dots is its own trimming. */
  lemma TrimPlain(s: string)
    requires Plain(s)
    ensures Trim(s) == s
  {
    if |s| > 0 {
      assert !IsSpace(s[0]);
      assert TrimStart(s) == s;
      var last := s[|s| - 1];
      assert IsDigit(last) || last == '.';
      assert !IsSpace(last);
    }
  }

  /** A string of digits and dots that starts with a digit is read as a
      mantissa alone. */
  lemma NumberOfPlain(s: string)
    requires Plain(s) && |s| > 0 && IsDigit(s[0])
    ensures ParseNumber(s) == ParseMantissa(s)
  {
    TrimPlain(s);
    PlainHasNoExponent(s);
    UnsignedWithoutExponent(s);
  }

  lemma PlainHasNoExponent(s: string)
    requires Plain(s)
    ensures ExpAt(s) == |s|
  {
  }

  lemma UnsignedWithoutExponent(s: string)
    requires ExpAt(s) == |s|
    ensures ParseUnsigned(s) == ParseMantissa(s)
  {
    assert s[..|s|] == s;
  }

  lemma MantissaOfDigits(s: string)
    requires AllDigits(s) && |s| > 0
    ensures ParseMantissa(s) == Some(DigitsValue(s) as real)
  {
    assert DotAt(s) == |s|;
    assert s[..|s|] == s;
  }

  /** Parsing what `str(n)` wrote gives n back. */
  lemma ParseNatText(n: nat)
    ensures ParseNumber(NatText(n)) == Some(n as real)
  {
    var s := NatText(n);
    NumberOfPlain(s);
    MantissaOfDigits(s);
    NatTextValue(n);
  }

  lemma MantissaOfDecimal(whole: string, frac: string)
    requires AllDigits(whole) && |whole| > 0 && AllDigits(frac)
    ensures ParseMantissa(whole + "." + frac) ==
              Some(DigitsValue(whole) as real + FractionValue(frac))
  {
    var s := whole + "." + frac;
    DotAfterDigits(whole, frac);
    assert s[..|whole|] == whole;
    assert s[|whole| + 1..] == frac;
  }

  lemma DotAfterDigits(whole: string, frac: string)
    requires AllDigits(whole)
    ensures DotAt(whole + "." + frac) == |whole|
  {
    var s := whole + "." + frac;
    assert forall i :: 0 <= i < |whole| ==> s[i] == whole[i];
    assert s[|whole|] == '.';
  }

  /** "<digits>.<digits>" is read as its whole part plus its fraction. */
  lemma PlainDecimal(whole: string, frac: string)
    requires AllDigits(whole) && |whole| > 0 && AllDigits(frac)
    ensures ParseNumber(whole + "." + frac) == Some(DigitsValue(whole) as real + FractionValue(frac))
  {
    var s := whole + "." + frac;
    PlainJoin(whole, frac);
    assert s[0] == whole[0];
    NumberOfPlain(s);
    MantissaOfDecimal(whole, frac);
  }

  lemma PlainJoin(whole: string, frac: string)
    requires AllDigits(whole) && AllDigits(frac)
    ensures Plain(whole + "." + frac)
  {
    var s := whole + "." + frac;
    forall i | 0 <= i < |s| ensures IsDigit(s[i]) || s[i] == '.' {
      if i < |whole| {
        assert s[i] == whole[i];
      } else if i > |whole| {
        assert s[i] == frac[i - |whole| - 1];
      }
    }
  }

  /** Two digits after the point denote hundredths: ".85" is 85/100. */
  lemma TwoDigitFraction(m: nat)
    requires m < 100
    ensures FractionValue([DigitChar(m / 10), DigitChar(m % 10)]) == m as real / 100.0
  {
    var frac := [DigitChar(m / 10), DigitChar(m % 10)];
    var a := (m / 10) as real;
    var b := (m % 10) as real;
    assert frac[1..] == [DigitChar(m % 10)];
    assert frac[1..][1..] == [];
    assert FractionValue(frac[1..]) == (b + 0.0) / 10.0;
    assert FractionValue(frac) == (a + b / 10.0) / 10.0;
    assert m as real == 10.0 * a + b;
  }

  lemma {:induction false} BlankTrimsAway(s: string)
    ensures AllSpace(s) ==> TrimStart(s) == []
  {
    if |s| > 0 && AllSpace(s) {
      assert IsSpace(s[0]);
      BlankTrimsAway(s[1..]);
    }
  }

  /** White space around a number does not change it. */
  lemma SpacesIgnored(s: string)
    ensures ParseNumber(" " + s + " ") == ParseNumber(s)
  {
    TrimSpaces(s);
  }

  lemma TrimSpaces(s: string)
    ensures Trim(" " + s + " ") == Trim(s)
  {
    var p := " " + s + " ";
    assert p[1..] == s + " ";
    assert TrimStart(p) == TrimStart(s + " ");
    TrimStartAppend(s);
    if !AllSpace(s) {
      var t := TrimStart(s);
      assert (t + " ")[..|t|] == t;
    }
  }

  lemma {:induction false} TrimStartAppend(s: string)
    ensures TrimStart(s + " ") == if AllSpace(s) then [] else TrimStart(s) + " "
  {
    if |s| == 0 {
      assert TrimStart(" ") == TrimStart(" "[1..]);
    } else {
      assert (s + " ")[0] == s[0];
      assert (s + " ")[1..] == s[1..] + " ";
      assert AllSpace(s) <==> IsSpace(s[0]) && AllSpace(s[1..]) by {
        assert forall i :: 0 < i < |s| ==> s[1..][i - 1] == s[i];
      }
      TrimStartAppend(s[1..]);
    }
  }
}

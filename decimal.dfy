/**
 * Decimal text of integers as Python writes it: `str(n)` and the
 * `{:0{w}d}` format (left zero-padding to at least `w` characters), the
 * value of a digit string, `int()` on a string, and Python's ordering of
 * strings.
 */
module Decimal {
  import opened Outcomes

  predicate IsDigit(c: char) { '0' <= c <= '9' }

  predicate AllDigits(s: string) { forall i :: 0 <= i < |s| ==> IsDigit(s[i]) }

  function DigitChar(d: nat): (c: char)
    requires d < 10
    ensures IsDigit(c) && c as int - '0' as int == d
  {
    ('0' as int + d) as char
  }

  function DigitValue(c: char): (d: nat)
    requires IsDigit(c)
    ensures d < 10
  {
    c as int - '0' as int
  }

  function Pow10(k: nat): (p: nat)
    ensures p >= 1
  {
    if k == 0 then 1 else 10 * Pow10(k - 1)
  }

  /** `str(n)` for a non-negative integer: digits only, no leading zero. */
  function NatToString(n: nat): (s: string)
    ensures |s| >= 1 && AllDigits(s)
    ensures s[0] == '0' <==> n == 0
  {
    if n < 10 then [DigitChar(n)] else NatToString(n / 10) + [DigitChar(n % 10)]
  }

  /** `str(n)` for any integer: a minus sign before the digits of `-n`. */
  function IntToString(n: int): (s: string)
    ensures |s| >= 1
    ensures n >= 0 ==> AllDigits(s)
    ensures n < 0 ==> s[0] == '-' && AllDigits(s[1..])
  {
    if n < 0 then "-" + NatToString(-n) else NatToString(n)
  }

  /** The value of a string of decimal digits (the empty string reads as 0). */
  function Value(s: string): (v: nat)
    requires AllDigits(s)
    ensures v < Pow10(|s|)
  {
    if s == [] then 0 else 10 * Value(s[..|s| - 1]) + DigitValue(s[|s| - 1])
  }

  function Zeros(k: nat): (s: string)
    ensures |s| == k && forall i :: 0 <= i < k ==> s[i] == '0'
  {
    seq(k, _ => '0')
  }

  /**
   * Python's `format(n, "0{w}d")` for `n >= 0`: `str(n)` left-padded with
   * zeros to `w` characters; a longer `str(n)` is kept whole.
   */
  function ZeroPad(n: nat, w: int): (s: string)
    ensures |s| == if |NatToString(n)| < w then w else |NatToString(n)|
    ensures AllDigits(s)
  {
    var digits := NatToString(n);
    if |digits| < w then Zeros(w - |digits|) + digits else digits
  }

  /** The last `w` decimal digits of `n`, most significant first. */
  function Fixed(n: nat, w: nat): (s: string)
    ensures |s| == w && AllDigits(s)
  {
    if w == 0 then [] else Fixed(n / 10, w - 1) + [DigitChar(n % 10)]
  }

  /** Python's `<` on strings: lexicographic by code point, a proper prefix first. */
  predicate LexLess(s: string, t: string)
  {
    if |s| == 0 then |t| > 0
    else if |t| == 0 then false
    else s[0] < t[0] || (s[0] == t[0] && LexLess(s[1..], t[1..]))
  }

  // ---------------------------------------------------------------------
  // Lengths

  lemma {:induction false} NatToStringLength(n: nat, w: nat)
    requires w >= 1
    ensures |NatToString(n)| <= w <==> n < Pow10(w)
  {
    if n >= 10 {
      if w == 1 {
        assert |NatToString(n / 10)| >= 1;
      } else {
        NatToStringLength(n / 10, w - 1);
        assert n / 10 < Pow10(w - 1) <==> n < 10 * Pow10(w - 1);
      }
    }
  }

  /** More value never needs fewer digits. */
  lemma NatToStringMonotone(a: nat, b: nat)
    requires a <= b
    ensures |NatToString(a)| <= |NatToString(b)|
  {
    var w := |NatToString(b)|;
    NatToStringLength(b, w);
    NatToStringLength(a, w);
  }

  // ---------------------------------------------------------------------
  // Round trips

  lemma {:induction false} ValueOfNatToString(n: nat)
    ensures Value(NatToString(n)) == n
  {
    if n >= 10 {
      var s := NatToString(n);
      assert s[..|s| - 1] == NatToString(n / 10);
      ValueOfNatToString(n / 10);
    }
  }

  lemma {:induction false} ValueOfFixed(n: nat, w: nat)
    requires n < Pow10(w)
    ensures Value(Fixed(n, w)) == n
  {
    if w > 0 {
      var s := Fixed(n, w);
      assert s[..|s| - 1] == Fixed(n / 10, w - 1);
      ValueOfFixed(n / 10, w - 1);
    }
  }

  /** Leading zeros do not change the value of a digit string. */
  lemma {:induction false} ValueIgnoresLeadingZeros(k: nat, s: string)
    requires AllDigits(s)
    ensures AllDigits(Zeros(k) + s) && Value(Zeros(k) + s) == Value(s)
  {
    if s == [] {
      assert Zeros(k) + s == Zeros(k);
      ValueOfZeros(k);
    } else {
      var t := Zeros(k) + s;
      assert t[..|t| - 1] == Zeros(k) + s[..|s| - 1];
      ValueIgnoresLeadingZeros(k, s[..|s| - 1]);
    }
  }

  lemma {:induction false} ValueOfZeros(k: nat)
    ensures Value(Zeros(k)) == 0
  {
    if k > 0 {
      assert Zeros(k)[..k - 1] == Zeros(k - 1);
      ValueOfZeros(k - 1);
    }
  }

  lemma {:induction false} FixedOfZero(k: nat)
    ensures Fixed(0, k) == Zeros(k)
  {
    if k > 0 {
      FixedOfZero(k - 1);
    }
  }

  /** Whenever `n` fits in `w >= 1` digits, zero-padding writes exactly its last `w` digits. */
  lemma {:induction false} ZeroPadIsFixed(n: nat, w: nat)
    requires w >= 1 && n < Pow10(w)
    ensures ZeroPad(n, w) == Fixed(n, w)
  {
    NatToStringLength(n, w);
    var digits := NatToString(n);
    if n < 10 {
      FixedOfZero(w - 1);
      assert ZeroPad(n, w) == Zeros(w - 1) + [DigitChar(n)];
    } else {
      var head := NatToString(n / 10);
      assert digits == head + [DigitChar(n % 10)];
      NatToStringLength(n / 10, w - 1);
      ZeroPadIsFixed(n / 10, w - 1);
      assert ZeroPad(n, w) == Zeros(w - |digits|) + head + [DigitChar(n % 10)];
      assert ZeroPad(n / 10, w - 1) == Zeros(w - |digits|) + head;
    }
  }

  /** Reading back a padded number gives the number, whatever the width. */
  lemma ValueOfZeroPad(n: nat, w: int)
    ensures Value(ZeroPad(n, w)) == n
  {
    var digits := NatToString(n);
    ValueOfNatToString(n);
    if |digits| < w {
      ValueIgnoresLeadingZeros(w - |digits|, digits);
    }
  }

  // ---------------------------------------------------------------------
  // Order

  lemma {:induction false} LexLessIrreflexive(s: string)
    ensures !LexLess(s, s)
  {
    if |s| > 0 {
      LexLessIrreflexive(s[1..]);
    }
  }

  /** Equal-length strings keep their order whatever follows them. */
  lemma {:induction false} LexLessExtend(x: string, y: string, u: string, v: string)
    requires |x| == |y| && LexLess(x, y)
    ensures LexLess(x + u, y + v)
  {
    if x[0] == y[0] && !(x[0] < y[0]) {
      assert (x + u)[1..] == x[1..] + u;
      assert (y + v)[1..] == y[1..] + v;
      LexLessExtend(x[1..], y[1..], u, v);
    }
  }

  /** A common prefix does not change the order. */
  lemma {:induction false} LexLessPrefix(p: string, x: string, y: string)
    requires LexLess(x, y)
    ensures LexLess(p + x, p + y)
  {
    if p != [] {
      assert (p + x)[1..] == p[1..] + x;
      assert (p + y)[1..] == p[1..] + y;
      LexLessPrefix(p[1..], x, y);
    } else {
      assert p + x == x && p + y == y;
    }
  }

  /** Fixed-width digit strings sort as their numbers do. */
  lemma {:induction false} FixedOrder(a: nat, b: nat, w: nat)
    requires a < b < Pow10(w)
    ensures LexLess(Fixed(a, w), Fixed(b, w))
  {
    var a', b' := a / 10, b / 10;
    assert a' <= b';
    var lastA, lastB := [DigitChar(a % 10)], [DigitChar(b % 10)];
    if a' < b' {
      FixedOrder(a', b', w - 1);
      LexLessExtend(Fixed(a', w - 1), Fixed(b', w - 1), lastA, lastB);
    } else {
      assert a % 10 < b % 10;
      assert LexLess(lastA, lastB);
      LexLessPrefix(Fixed(a', w - 1), lastA, lastB);
    }
  }

  /** Zero-padded numbers that fit the width sort as their numbers do. */
  lemma ZeroPadOrder(a: nat, b: nat, w: nat)
    requires a < b && |NatToString(b)| <= w
    ensures LexLess(ZeroPad(a, w), ZeroPad(b, w))
  {
    NatToStringLength(b, w);
    ZeroPadIsFixed(a, w);
    ZeroPadIsFixed(b, w);
    FixedOrder(a, b, w);
  }

  // ---------------------------------------------------------------------
  // Reading integers back: `int(s)`

  /**
   * `sys.get_int_max_str_digits()` at its default: `int()` refuses a
   * decimal numeral with more digits (underscores and the sign not
   * counted), and `str()` refuses to write an integer with more.
   */
  const MaxStrDigits: nat := 4300

  /** `str(n)` stays within the digit limit, so Python can write `n` at all. */
  predicate WithinStrDigits(n: int)
  {
    |NatToString(if n < 0 then -n else n)| <= MaxStrDigits
  }

  /**
   * The ASCII characters `str.isspace` accepts, which `int()` strips: space,
   * and the code points 0x09 to 0x0D and 0x1C to 0x1F.
   */
  predicate IsSpace(c: char)
  {
    c == ' ' || (0x09 <= c as int <= 0x0D) || (0x1C <= c as int <= 0x1F)
  }

  function StripLeft(s: string): string
  {
    if |s| > 0 && IsSpace(s[0]) then StripLeft(s[1..]) else s
  }

  function StripRight(s: string): string
  {
    if |s| > 0 && IsSpace(s[|s| - 1]) then StripRight(s[..|s| - 1]) else s
  }

  /** Digits, with single underscores allowed between two digits (`"1_000"`). */
  predicate WellFormedDigits(s: string)
  {
    |s| > 0 && IsDigit(s[0]) && IsDigit(s[|s| - 1]) &&
    (forall i :: 0 <= i < |s| ==> IsDigit(s[i]) || s[i] == '_') &&
    (forall i :: 0 <= i < |s| - 1 ==> s[i] == '_' ==> s[i + 1] != '_')
  }

  function DropUnderscores(s: string): (r: string)
    requires forall i :: 0 <= i < |s| ==> IsDigit(s[i]) || s[i] == '_'
    ensures AllDigits(r)
    ensures AllDigits(s) ==> r == s
  {
    if s == [] then []
    else (if s[0] == '_' then [] else [s[0]]) + DropUnderscores(s[1..])
  }

  /** The digits of `int(s)`: None when malformed or longer than the digit limit. */
  function ParseDigits(s: string): (r: Option<nat>)
    ensures r.Some? <==> WellFormedDigits(s) && |DropUnderscores(s)| <= MaxStrDigits
  {
    if WellFormedDigits(s) && |DropUnderscores(s)| <= MaxStrDigits then Some(Value(DropUnderscores(s))) else None
  }

  /**
   * Python's `int(s)` on a string in base 10: surrounding whitespace,
   * an optional sign, then digits; anything else, and a numeral over the
   * digit limit, is a `ValueError` (None).
   */
  function ParseInt(s: string): Option<int>
  {
    var t := StripRight(StripLeft(s));
    if |t| > 0 && (t[0] == '+' || t[0] == '-') then
      match ParseDigits(t[1..])
      case Some(v) => var m: int := v; Some(if t[0] == '-' then -m else m)
      case None => None
    else
      match ParseDigits(t)
      case Some(v) => Some(v)
      case None => None
  }

  lemma StripNothing(s: string)
    requires |s| > 0 && !IsSpace(s[0]) && !IsSpace(s[|s| - 1])
    ensures StripRight(StripLeft(s)) == s
  {
  }

  /** A plain decimal numeral within the digit limit reads as its value. */
  lemma ParseDigitsOfNatToString(n: nat)
    requires |NatToString(n)| <= MaxStrDigits
    ensures ParseDigits(NatToString(n)) == Some(n)
  {
    var digits := NatToString(n);
    assert WellFormedDigits(digits);
    ValueOfNatToString(n);
  }

  lemma ParseIntOfNatToString(n: nat)
    requires |NatToString(n)| <= MaxStrDigits
    ensures ParseInt(NatToString(n)) == Some(n as int)
  {
    var s := NatToString(n);
    assert IsDigit(s[0]) && IsDigit(s[|s| - 1]);
    StripNothing(s);
    ParseDigitsOfNatToString(n);
  }

  /** A stripped `-` followed by digits reads as the negated value of the digits. */
  lemma ParseIntOfMinus(s: string, v: nat)
    requires |s| > 0 && s[0] == '-' && StripRight(StripLeft(s)) == s
    requires ParseDigits(s[1..]) == Some(v)
    ensures ParseInt(s) == Some(-(v as int))
  {
    var t := StripRight(StripLeft(s));
    assert |t| > 0 && t[0] == '-' && t[1..] == s[1..];
    var m: int := v;
    assert ParseInt(s) == Some(-m);
  }

  lemma ParseIntOfNegative(n: nat)
    requires n > 0 && |NatToString(n)| <= MaxStrDigits
    ensures ParseInt("-" + NatToString(n)) == Some(-(n as int))
  {
    var digits := NatToString(n);
    var s := "-" + digits;
    assert s[0] == '-' && s[|s| - 1] == digits[|digits| - 1] && s[1..] == digits;
    StripNothing(s);
    ParseDigitsOfNatToString(n);
    ParseIntOfMinus(s, n);
  }


  /** `int(str(n)) == n`: Python reads back every integer it can write. */
  lemma ParseIntOfIntToString(n: int)
    requires WithinStrDigits(n)
    ensures ParseInt(IntToString(n)) == Some(n)
  {
    if n < 0 {
      ParseIntOfNegative(-n);
    } else {
      ParseIntOfNatToString(n);
    }
  }

  /** A numeral one digit over the limit is refused, however well formed. */
  lemma ParseIntRefusesLongNumeral(n: nat)
    requires |NatToString(n)| > MaxStrDigits
    ensures ParseInt(NatToString(n)) == None
  {
    var s := NatToString(n);
    assert IsDigit(s[0]) && IsDigit(s[|s| - 1]);
    StripNothing(s);
    assert DropUnderscores(s) == s;
  }
}

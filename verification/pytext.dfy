/** The few Python text operations the modelled code relies on: `int()` on a str,
    `str()` of a non-negative int, zero-padded digits, negative-index slices and
    the substring test `sub in s`. Only ASCII digits and ASCII whitespace are modelled. */
module PyText {
  import opened Common

  predicate IsDigit(c: char) { '0' <= c <= '9' }

  predicate AllDigits(s: string) { forall i :: 0 <= i < |s| ==> IsDigit(s[i]) }

  function DigitValue(c: char): (d: nat)
    requires IsDigit(c)
    ensures d < 10
  {
    (c as int) - ('0' as int)
  }

  function DigitChar(d: nat): (c: char)
    requires d < 10
    ensures IsDigit(c) && DigitValue(c) == d
  {
    (('0' as int) + d) as char
  }

  function Pow10(k: nat): (p: nat)
    ensures p >= 1
  {
    if k == 0 then 1 else 10 * Pow10(k - 1)
  }

  /** The value of a run of decimal digits, most significant digit first. */
  function DigitsValue(s: string): nat
    requires AllDigits(s)
  {
    if s == [] then 0 else DigitsValue(s[..|s| - 1]) * 10 + DigitValue(s[|s| - 1])
  }

  /** `str(n)` for a non-negative integer: no sign, no leading zero. */
  function Decimal(n: nat): (s: string)
    ensures 1 <= |s| && AllDigits(s)
    ensures |s| > 1 ==> s[0] != '0'
  {
    if n < 10 then [DigitChar(n)] else Decimal(n / 10) + [DigitChar(n % 10)]
  }

  /** `f"{n:0{w}d}"`: the last `w` decimal digits of `n`, padded with zeros. */
  function Padded(n: nat, w: nat): (s: string)
    ensures |s| == w && AllDigits(s)
  {
    if w == 0 then [] else Padded(n / 10, w - 1) + [DigitChar(n % 10)]
  }

  /** Python's `str.isspace` restricted to ASCII. */
  predicate IsSpace(c: char)
  {
    c == ' ' || c == '\t' || c == '\n' || c == '\r' || ('\U{000B}' <= c <= '\U{000C}')
    || ('\U{001C}' <= c <= '\U{001F}')
  }

  /** `s.lstrip()`. */
  function TrimStart(s: string): string
  {
    if s != [] && IsSpace(s[0]) then TrimStart(s[1..]) else s
  }

  /** `s.rstrip()`. */
  function TrimEnd(s: string): string
  {
    if s != [] && IsSpace(s[|s| - 1]) then TrimEnd(s[..|s| - 1]) else s
  }

  /** `lstrip` removes a run of leading whitespace and nothing else. */
  lemma {:induction false} TrimStartIsSuffix(s: string)
    ensures |TrimStart(s)| <= |s| && TrimStart(s) == s[|s| - |TrimStart(s)|..]
    ensures TrimStart(s) == [] || !IsSpace(TrimStart(s)[0])
    ensures forall i :: 0 <= i < |s| - |TrimStart(s)| ==> IsSpace(s[i])
  {
    if s != [] && IsSpace(s[0]) {
      TrimStartIsSuffix(s[1..]);
      forall i | 1 <= i < |s| - |TrimStart(s)| ensures IsSpace(s[i]) {
        assert s[i] == s[1..][i - 1];
      }
    }
  }

  /** `rstrip` removes a run of trailing whitespace and nothing else. */
  lemma {:induction false} TrimEndIsPrefix(s: string)
    ensures |TrimEnd(s)| <= |s| && TrimEnd(s) == s[..|TrimEnd(s)|]
    ensures TrimEnd(s) == [] || !IsSpace(TrimEnd(s)[|TrimEnd(s)| - 1])
    ensures forall i :: |TrimEnd(s)| <= i < |s| ==> IsSpace(s[i])
  {
    if s != [] && IsSpace(s[|s| - 1]) {
      TrimEndIsPrefix(s[..|s| - 1]);
      forall i | |TrimEnd(s)| <= i < |s| - 1 ensures IsSpace(s[i]) {
        assert s[i] == s[..|s| - 1][i];
      }
    }
  }

  /** `s.strip()`. */
  function Strip(s: string): string
  {
    TrimEnd(TrimStart(s))
  }

  /** Python's `int(s)` for a str: surrounding whitespace, an optional sign, then at
      least one decimal digit; anything else is a ValueError, modelled as `None`. */
  function ParseInt(s: string): Option<int>
  {
    var t := Strip(s);
    if 1 <= |t| && (t[0] == '+' || t[0] == '-') then
      match Unsigned(t[1..])
      case None => None
      case Some(v) => Some(if t[0] == '-' then -(v as int) else v)
    else
      match Unsigned(t)
      case None => None
      case Some(v) => Some(v)
  }

  /** The value of a non-empty run of decimal digits; `None` for any other text. */
  function Unsigned(t: string): Option<nat>
  {
    if t == [] || !IsDigit(t[|t| - 1]) then None
    else if |t| == 1 then Some(DigitValue(t[0]))
    else match Unsigned(t[..|t| - 1])
      case None => None
      case Some(v) => Some(v * 10 + DigitValue(t[|t| - 1]))
  }

  /** `Unsigned` accepts exactly the non-empty runs of digits, and reads their value. */
  lemma {:induction false} UnsignedDigits(t: string)
    ensures Unsigned(t).Some? <==> t != [] && AllDigits(t)
    ensures Unsigned(t).Some? ==> Unsigned(t).value == DigitsValue(t)
  {
    if |t| > 1 && IsDigit(t[|t| - 1]) {
      var init := t[..|t| - 1];
      UnsignedDigits(init);
      if AllDigits(init) {
        assert AllDigits(t) by {
          forall i | 0 <= i < |t| ensures IsDigit(t[i]) {
            if i < |t| - 1 { assert t[i] == init[i]; }
          }
        }
      } else {
        var i :| 0 <= i < |init| && !IsDigit(init[i]);
        assert t[i] == init[i];
      }
    } else if |t| == 1 && IsDigit(t[0]) {
      assert t[..0] == [];
    }
  }

  /** `int(s)` accepts exactly the stripped texts made of an optional sign and a
      non-empty run of digits, and reads them as that signed decimal value. */
  lemma ParseIntSyntax(s: string)
    ensures var t := Strip(s);
      var signed := 1 <= |t| && (t[0] == '+' || t[0] == '-');
      var digits := if signed then t[1..] else t;
      && (ParseInt(s).Some? <==> digits != [] && AllDigits(digits))
      && (ParseInt(s).Some? ==>
            ParseInt(s).value == if signed && t[0] == '-' then -(DigitsValue(digits) as int) else DigitsValue(digits) as int)
  {
    var t := Strip(s);
    if 1 <= |t| && (t[0] == '+' || t[0] == '-') {
      UnsignedDigits(t[1..]);
    } else {
      UnsignedDigits(t);
    }
  }

  /** Python's `s[-n:]`: the last `n` elements, or all of `s` when it is shorter.
      Since `-0` is `0`, `s[-0:]` is all of `s`. */
  function LastN<T>(s: seq<T>, n: nat): (r: seq<T>)
    ensures |r| <= |s| && r == s[|s| - |r|..]
    ensures n > 0 ==> |r| == Min(n, |s|)
    ensures n == 0 ==> r == s
  {
    if n == 0 || |s| <= n then s else s[|s| - n..]
  }

  /** Python's `sub in s` on two strings. */
  predicate Contains(s: string, sub: string)
    decreases |s|
  {
    |sub| <= |s| && (s[..|sub|] == sub || Contains(s[1..], sub))
  }

  /** `sub` occurs in `s` starting at position `i`. */
  predicate OccursAt(s: string, sub: string, i: int)
  {
    0 <= i <= |s| - |sub| && s[i..i + |sub|] == sub
  }

  /** `sub in s` holds exactly when `sub` occurs in `s` at some position. */
  lemma {:induction false} ContainsAt(s: string, sub: string)
    ensures Contains(s, sub) <==> exists i :: OccursAt(s, sub, i)
  {
    if |sub| <= |s| {
      if s[..|sub|] == sub {
        assert OccursAt(s, sub, 0);
      } else {
        var tail := s[1..];
        ContainsAt(tail, sub);
        if exists i :: OccursAt(tail, sub, i) {
          var i :| OccursAt(tail, sub, i);
          assert s[i + 1..i + 1 + |sub|] == tail[i..i + |sub|];
          assert OccursAt(s, sub, i + 1);
        }
        if exists i :: OccursAt(s, sub, i) {
          var i :| OccursAt(s, sub, i);
          assert i != 0;
          assert tail[i - 1..i - 1 + |sub|] == s[i..i + |sub|];
          assert OccursAt(tail, sub, i - 1);
        }
      }
    }
  }

  /** `str(n)` is read back by `int()`. */
  lemma {:induction false} DecimalValue(n: nat)
    ensures DigitsValue(Decimal(n)) == n
  {
    if n >= 10 {
      DecimalValue(n / 10);
      var s := Decimal(n);
      assert s[..|s| - 1] == Decimal(n / 10);
    }
  }

  /** Zero padding to width `w` keeps the value of any number below 10^w. */
  lemma {:induction false} PaddedValue(n: nat, w: nat)
    requires n < Pow10(w)
    ensures DigitsValue(Padded(n, w)) == n
  {
    if w > 0 {
      PaddedValue(n / 10, w - 1);
      var s := Padded(n, w);
      assert s[..w - 1] == Padded(n / 10, w - 1);
    }
  }

  /** Padding the value of a digit run to its own width gives the run back, so a
      fixed-width digit field has exactly one reading. */
  lemma {:induction false} PaddedOfDigits(s: string)
    requires AllDigits(s)
    ensures DigitsValue(s) < Pow10(|s|)
    ensures Padded(DigitsValue(s), |s|) == s
  {
    if s != [] {
      var init := s[..|s| - 1];
      PaddedOfDigits(init);
      var n := DigitsValue(s);
      assert n / 10 == DigitsValue(init) && n % 10 == DigitValue(s[|s| - 1]);
      assert DigitChar(n % 10) == s[|s| - 1];
      assert s == init + [s[|s| - 1]];
    }
  }

  /** `int(str(n)) == n`. */
  lemma ParseIntDecimal(n: nat)
    ensures ParseInt(Decimal(n)) == Some(n)
  {
    var s := Decimal(n);
    assert !IsSpace(s[0]) && !IsSpace(s[|s| - 1]);
    assert TrimStart(s) == s;
    assert TrimEnd(s) == s;
    assert Strip(s) == s;
    DecimalValue(n);
    UnsignedDigits(s);
  }

  /** `str` is injective on non-negative integers. */
  lemma DecimalInjective(m: nat, n: nat)
    requires Decimal(m) == Decimal(n)
    ensures m == n
  {
    DecimalValue(m);
    DecimalValue(n);
  }
}

/**
  Printing numbers (printnum of lib/printfmt.c) and reading them back (strtol of lib/string.c).
*/
module NumText {
  import opened Arith
  import Kernel

  const DIGITS := "0123456789abcdef"

  function Max(a: int, b: int): int {
    if a < b then b else a
  }

  // ----- printing -----

  /** Quotient and remainder by repeated subtraction. */
  function Quot(n: nat, base: nat): (q: nat)
    requires base > 0
  {
    if n < base then 0 else Quot(n - base, base) + 1
  }

  function Rem(n: nat, base: nat): (r: nat)
    requires base > 0
    ensures r < base
  {
    if n < base then n else Rem(n - base, base)
  }

  /** They are the machine's. */
  lemma {:induction false} QuotRem(n: nat, base: nat)
    requires base > 0
    ensures Quot(n, base) == n / base && Rem(n, base) == n % base
    decreases n
  {
    if n < base {
      MulMod(0, n, base);
    } else {
      QuotRem(n - base, base);
      var q, r := (n - base) / base, (n - base) % base;
      assert n == (q + 1) * base + r;
      MulMod(q + 1, r, base);
    }
  }

  lemma {:induction false} QuotSmaller(n: nat, base: nat)
    requires 2 <= base <= n
    ensures Quot(n, base) < n
    decreases n
  {
    if n - base >= base {
      QuotSmaller(n - base, base);
    }
  }

  /** The digits of a number, most significant first. */
  function Digits(n: nat, base: nat): (ds: string)
    requires 2 <= base <= 16
    ensures |ds| >= 1
  {
    if n >= base then QuotSmaller(n, base); Digits(Quot(n, base), base) + [DIGITS[Rem(n, base)]]
    else [DIGITS[n]]
  }

  function Pad(k: int, c: char): (p: string)
    ensures |p| == Max(k, 0)
  {
    seq(Max(k, 0), _ => c)
  }

  /** Right-justified in `width` columns; wider numbers are not cut. */
  function Printed(n: nat, base: nat, width: int, padc: char): (s: string)
    requires 2 <= base <= 16
    ensures |s| == Max(width, |Digits(n, base)|)
  {
    Pad(width - |Digits(n, base)|, padc) + Digits(n, base)
  }

  /** The number stands at the right end, and everything before it is padding. */
  lemma PrintedForm(n: nat, base: nat, width: int, padc: char)
    requires 2 <= base <= 16
    ensures var s, ds := Printed(n, base, width, padc), Digits(n, base);
            s[|s| - |ds|..] == ds && forall i :: 0 <= i < |s| - |ds| ==> s[i] == padc
  {
    hide Digits;
  }

  /** The output that putch writes to. */
  class Console {
    var text: string

    constructor ()
      ensures text == ""
    {
      text := "";
    }

    method Putch(c: char)
      modifies this
      ensures text == old(text) + [c]
    {
      text := text + [c];
    }

    /** printnum. */
    method PrintNum(num: nat, base: nat, width: int, padc: char)
      requires 2 <= base <= 16
      modifies this
      ensures text == old(text) + Printed(num, base, width, padc)
      decreases num
    {
      QuotRem(num, base);
      if num >= base {
        QuotSmaller(num, base);
        PrintNum(num / base, base, width - 1, padc);
      } else {
        var w := width - 1;
        while w > 0
          invariant w <= width - 1 && (width >= 1 ==> w >= 0)
          invariant text == old(text) + Pad(width - 1 - Max(w, 0), padc)
        {
          assert Pad(width - w, padc) == Pad(width - 1 - w, padc) + [padc];
          Putch(padc);
          w := w - 1;
        }
      }
      Putch(DIGITS[num % base]);
    }
  }

  // ----- reading -----

  /** The character at i of a NUL-terminated string. */
  function At(s: string, i: nat): char {
    if i < |s| then s[i] else '\0'
  }

  /** The digit a character stands for, or -1. */
  function Dig(c: char): int {
    if '0' <= c <= '9' then c as int - '0' as int
    else if 'a' <= c <= 'z' then c as int - 'a' as int + 10
    else if 'A' <= c <= 'Z' then c as int - 'A' as int + 10
    else -1
  }

  predicate IsDigit(c: char, base: int) {
    0 <= Dig(c) < base
  }

  predicate Blank(c: char) {
    c == ' ' || c == '\t'
  }

  function SkipBlanks(s: string, i: nat): (j: nat)
    requires i <= |s|
    ensures i <= j <= |s| && (forall k :: i <= k < j ==> Blank(s[k])) && !Blank(At(s, j))
    decreases |s| - i
  {
    if Blank(At(s, i)) then SkipBlanks(s, i + 1) else i
  }

  function SkipDigits(s: string, i: nat, base: int): (j: nat)
    requires i <= |s|
    ensures i <= j <= |s| && (forall k :: i <= k < j ==> IsDigit(s[k], base)) && !IsDigit(At(s, j), base)
    decreases |s| - i
  {
    if i < |s| && IsDigit(s[i], base) then SkipDigits(s, i + 1, base) else i
  }

  /** The number that digits stand for. */
  function ValueOf(ds: string, base: int): int {
    if ds == [] then 0 else Scale(ValueOf(ds[..|ds| - 1], base), base) + Dig(ds[|ds| - 1])
  }

  /** x, base times. */
  function Scale(x: int, base: int): int {
    if base <= 0 then 0 else Scale(x, base - 1) + x
  }

  lemma {:induction false} ScaleIs(x: int, base: nat)
    ensures Scale(x, base) == x * base
    decreases base
  {
    if base > 0 {
      ScaleIs(x, base - 1);
      assert x * base == x * (base - 1) + x;
    }
  }

  /** Base and position after a prefix such as 0x. */
  function Prefix(s: string, i: nat, base: int): (r: (int, nat))
    requires i <= |s|
    ensures i <= r.1 <= |s|
  {
    if (base == 0 || base == 16) && At(s, i) == '0' && At(s, i + 1) == 'x' then (16, i + 2)
    else if base == 0 && At(s, i) == '0' then (8, i + 1)
    else if base == 0 then (10, i)
    else (base, i)
  }

  /** strtol: the value as a 32-bit word and the position where it stopped. */
  function Parsed(s: string, base: int): (int, nat) {
    var i := SkipBlanks(s, 0);
    var neg := At(s, i) == '-';
    var (b, k) := Prefix(s, if neg || At(s, i) == '+' then i + 1 else i, base);
    var end := SkipDigits(s, k, b);
    var v := Kernel.Wrap32(ValueOf(s[k..end], b));
    (if neg then Kernel.Wrap32(-v) else v, end)
  }

  method Strtol(s: string, givenBase: int) returns (result: int, end: nat)
    ensures (result, end) == Parsed(s, givenBase)
  {
    hide IsDigit, Dig, ValueOf, Kernel.Wrap32, Prefix, SkipDigits;
    var i, base := 0, givenBase;
    while Blank(At(s, i))
      invariant 0 <= i <= |s| && SkipBlanks(s, 0) == SkipBlanks(s, i)
      decreases |s| - i
    {
      i := i + 1;
    }
    var neg := false;
    if At(s, i) == '+' {
      i := i + 1;
    } else if At(s, i) == '-' {
      i := i + 1;
      neg := true;
    }
    base, i := ReadPrefix(s, i, base);
    var val;
    val, end := ReadDigits(s, i, base);
    result := if neg then Kernel.Wrap32(-val) else val;
  }

  method ReadPrefix(s: string, k: nat, givenBase: int) returns (base: int, i: nat)
    requires k <= |s|
    ensures (base, i) == Prefix(s, k, givenBase)
  {
    base, i := givenBase, k;
    if (base == 0 || base == 16) && At(s, i) == '0' && At(s, i + 1) == 'x' {
      i := i + 2;
      base := 16;
    } else if base == 0 && At(s, i) == '0' {
      i := i + 1;
      base := 8;
    } else if base == 0 {
      base := 10;
    }
  }

  /** The digit loop: a 32-bit accumulator. */
  method ReadDigits(s: string, k: nat, base: int) returns (val: int, i: nat)
    requires k <= |s|
    ensures i == SkipDigits(s, k, base) && val == Kernel.Wrap32(ValueOf(s[k..i], base))
  {
    hide IsDigit, Dig, Kernel.Wrap32;
    i, val := k, 0;
    NoDigits(s, k, base);
    while i < |s| && IsDigit(s[i], base)
      invariant k <= i <= |s| && SkipDigits(s, k, base) == SkipDigits(s, i, base)
      invariant val == Kernel.Wrap32(ValueOf(s[k..i], base))
      decreases |s| - i
    {
      OneMoreDigit(s, k, i, base);
      PositiveBase(s[i], base);
      ScaleIs(val, base);
      WrapDigit(ValueOf(s[k..i], base), base, Dig(s[i]));
      val := Kernel.Wrap32(val * base + Dig(s[i]));
      i := i + 1;
    }
  }

  lemma NoDigits(s: string, k: nat, base: int)
    requires k <= |s|
    ensures Kernel.Wrap32(ValueOf(s[k..k], base)) == 0
  {
  }

  lemma OneMoreDigit(s: string, k: nat, i: nat, base: int)
    requires k <= i < |s|
    ensures ValueOf(s[k..i + 1], base) == Scale(ValueOf(s[k..i], base), base) + Dig(s[i])
  {
    hide Dig;
    assert s[k..i + 1][..i - k] == s[k..i];
  }

  lemma PositiveBase(c: char, base: int)
    ensures IsDigit(c, base) ==> base > 0
  {
  }

  /** Wrapping early does not change the wrapped result. */
  lemma {:induction false} WrapDigit(x: int, b: int, d: int)
    ensures Kernel.Wrap32(Scale(Kernel.Wrap32(x), b) + d) == Kernel.Wrap32(Scale(x, b) + d)
    decreases b
  {
    if b > 0 {
      WrapDigit(x, b - 1, Kernel.Wrap32(x) + d);
      WrapSum(Scale(x, b - 1) + d, x);
    }
  }

  lemma WrapSum(y: int, x: int)
    ensures Kernel.Wrap32(y + Kernel.Wrap32(x)) == Kernel.Wrap32(y + x)
  {
  }

  // ----- round trip -----

  lemma DigOfDigit(d: nat)
    requires d < 16
    ensures Dig(DIGITS[d]) == d && DIGITS[d] != 'x' && !Blank(DIGITS[d]) && DIGITS[d] != '+' && DIGITS[d] != '-'
  {
  }

  /** Every character is a digit of the base ... */
  lemma {:induction false} DigitsPlain(n: nat, base: nat)
    requires 2 <= base <= 16
    ensures forall i :: 0 <= i < |Digits(n, base)| ==>
              IsDigit(Digits(n, base)[i], base) && PlainDigit(Digits(n, base)[i])
    decreases n
  {
    DigOfDigit(Rem(n, base));
    hide Dig;
    if n >= base {
      QuotSmaller(n, base);
      DigitsPlain(Quot(n, base), base);
    }
  }

  /** Digit by digit from the right, ds is n written in the base. */
  ghost predicate Spells(ds: string, base: nat, n: nat)
    requires base > 0
    decreases |ds|
  {
    if ds == [] then n == 0 else Dig(ds[|ds| - 1]) == Rem(n, base) && Spells(ds[..|ds| - 1], base, Quot(n, base))
  }

  /** ... and together they spell n ... */
  lemma {:induction false} DigitsSpell(n: nat, base: nat)
    requires 2 <= base <= 16
    ensures Spells(Digits(n, base), base, n)
    decreases n
  {
    hide Dig;
    DigOfDigit(Rem(n, base));
    var ds := Digits(n, base);
    if n >= base {
      QuotSmaller(n, base);
      DigitsSpell(Quot(n, base), base);
      assert ds[..|ds| - 1] == Digits(Quot(n, base), base);
    } else {
      assert ds[..|ds| - 1] == [];
    }
  }

  /** ... and what spells n has the value n. */
  lemma {:induction false} SpelledValue(ds: string, base: nat, n: nat)
    requires base > 0 && Spells(ds, base, n)
    ensures ValueOf(ds, base) == n
    decreases |ds|
  {
    hide Dig;
    if ds != [] {
      SpelledValue(ds[..|ds| - 1], base, Quot(n, base));
      ScaleIs(Quot(n, base), base);
      QuotRem(n, base);
      DivMod(n, base);
    }
  }

  lemma DivMod(n: nat, base: nat)
    requires base > 0
    ensures (n / base) * base + n % base == n
  {
  }

  predicate PlainDigit(c: char) {
    c != 'x' && !Blank(c) && c != '+' && c != '-' && c != '\0'
  }

  lemma {:induction false} LeadingZeros(k: nat, ds: string, base: int)
    ensures ValueOf(Pad(k, '0') + ds, base) == ValueOf(ds, base)
    decreases |ds|, k
  {
    var s := Pad(k, '0') + ds;
    if ds != [] {
      LeadingZeros(k, ds[..|ds| - 1], base);
      assert s[..|s| - 1] == Pad(k, '0') + ds[..|ds| - 1];
    } else if k > 0 {
      if base >= 0 {
        ScaleIs(0, base);
      }
      LeadingZeros(k - 1, ds, base);
      assert s[..|s| - 1] == Pad(k - 1, '0') + ds;
    }
  }

  /** Reading from position i on, where only digits follow. */
  lemma AllDigits(s: string, i: nat, base: int)
    requires i <= |s| && forall k :: i <= k < |s| ==> IsDigit(s[k], base)
    ensures SkipDigits(s, i, base) == |s|
    decreases |s| - i
  {
    if i < |s| {
      AllDigits(s, i + 1, base);
    }
  }

  /**
    Printing a number in any base from 2 to 16, padded with blanks or zeros to any width, and reading it back in
    that base consumes all of it and gives the number modulo 2^32, as a signed word.
  */
  lemma RoundTrip(n: nat, base: nat, width: int, padc: char)
    requires 2 <= base <= 16 && (padc == ' ' || padc == '0')
    ensures var s := Printed(n, base, width, padc);
            Parsed(s, base) == (Kernel.Wrap32(n), |s|)
  {
    hide Dig, IsDigit, ValueOf, Digits, Kernel.Wrap32;
    var ds, s := Digits(n, base), Printed(n, base, width, padc);
    var p := |s| - |ds|;
    DigitsPlain(n, base);
    DigitsSpell(n, base);
    SpelledValue(ds, base, n);
    LeadingZeros(p, ds, base);
    var i := SkipBlanks(s, 0);
    PaddingSkipped(Pad(p, padc), ds, padc);
    assert s == Pad(p, padc) + ds;
    assert s[i..|s|] == if padc == '0' then s else ds;
    forall k | i <= k < |s|
      ensures IsDigit(s[k], base) && PlainDigit(s[k])
    {
      ZeroDigit(base);
    }
    AllDigits(s, i, base);
  }

  lemma ZeroDigit(base: nat)
    requires base >= 2
    ensures IsDigit('0', base) && PlainDigit('0')
  {
  }

  /** Blanks are skipped and zeros are not. */
  lemma PaddingSkipped(pad: string, ds: string, padc: char)
    requires ds != [] && PlainDigit(ds[0]) && (padc == ' ' || padc == '0') && forall k :: 0 <= k < |pad| ==>
              pad[k] == padc
    ensures SkipBlanks(pad + ds, 0) == if padc == ' ' then |pad| else 0
  {
    var s := pad + ds;
    var j := SkipBlanks(s, 0);
    assert s[|pad|] == ds[0];
    assert forall k :: 0 <= k < |pad| ==> s[k] == padc;
    if padc == ' ' && j < |pad| {
      assert Blank(At(s, j));
    }
  }

  /** Reading back what was printed gives the number itself. */
  ghost predicate ReadsBack(n: nat, base: nat, width: int, padc: char)
    requires 2 <= base <= 16
  {
    Parsed(Printed(n, base, width, padc), base).0 == n
  }

  lemma RoundTripIff(n: nat, base: nat, width: int, padc: char)
    requires 2 <= base <= 16 && (padc == ' ' || padc == '0')
    ensures ReadsBack(n, base, width, padc) <==> n < Kernel.INT_LIMIT
  {
    hide Parsed, Printed, Kernel.Wrap32;
    RoundTrip(n, base, width, padc);
    WrapExact(n);
  }

  /** A number survives the wrap-around iff it is below 2^31. */
  lemma WrapExact(n: nat)
    ensures Kernel.Wrap32(n) == n <==> n < Kernel.INT_LIMIT
  {
  }

  // ----- signs, prefixes and what follows -----

  /** Position j follows the optional sign at i. */
  predicate AfterSign(s: string, i: nat, j: nat) {
    j == if At(s, i) == '+' || At(s, i) == '-' then i + 1 else i
  }

  /** Position k follows the prefix at j, and b is the base it and the base argument stand for: 0x is hexadecimal where
      the argument allows it, and without a given base a leading 0 is octal and anything else decimal. */
  predicate AfterPrefix(s: string, j: nat, k: nat, base: int, b: int) {
    if At(s, j) == '0' && At(s, j + 1) == 'x' && base in {0, 16} then k == j + 2 && b == 16
    else if base != 0 then k == j && b == base
    else if At(s, j) == '0' then k == j + 1 && b == 8
    else k == j && b == 10
  }

  /** Digits of base b from k up to end, and none there. */
  ghost predicate DigitsUpTo(s: string, k: nat, end: nat, b: int) {
    k <= end <= |s| && (forall x :: k <= x < end ==> IsDigit(s[x], b)) && !IsDigit(At(s, end), b)
  }

  ghost predicate BlanksUpTo(s: string, i: nat) {
    i <= |s| && (forall x :: 0 <= x < i ==> Blank(s[x])) && !Blank(At(s, i))
  }

  lemma {:induction false} SkipsBlanks(s: string, x: nat, i: nat)
    requires BlanksUpTo(s, i) && x <= i
    ensures SkipBlanks(s, x) == i
    decreases i - x
  {
    if x < i {
      SkipsBlanks(s, x + 1, i);
    }
  }

  lemma {:induction false} SkipsDigits(s: string, k: nat, x: nat, end: nat, b: int)
    requires DigitsUpTo(s, k, end, b) && k <= x <= end
    ensures SkipDigits(s, x, b) == end
    decreases end - x
  {
    hide Dig, IsDigit;
    if x < end {
      SkipsDigits(s, k, x + 1, end, b);
    }
  }

  /**
    strtol on any text: it skips the blanks, takes a sign and a prefix, reads digits of the base these stand for, and
    stops at what follows.  The value is the digits' modulo 2^32, negated after a minus.
  */
  lemma NumberRead(s: string, base: int, i: nat, j: nat, k: nat, end: nat, b: int)
    requires BlanksUpTo(s, i) && AfterSign(s, i, j) && AfterPrefix(s, j, k, base, b) && DigitsUpTo(s, k, end, b)
    ensures Parsed(s, base) ==
              (Signed(At(s, i) == '-', Kernel.Wrap32(ValueOf(s[k..end], b))), end)
  {
    hide Dig, IsDigit, ValueOf, Kernel.Wrap32, SkipBlanks, SkipDigits, DigitsUpTo, BlanksUpTo;
    SkipsBlanks(s, 0, i);
    SkipsDigits(s, k, k, end, b) by {
      InText(s, i, k, end, b);
    }
    InText(s, i, k, end, b);
  }

  function Signed(neg: bool, v: int): int {
    if neg then Kernel.Wrap32(-v) else v
  }

  lemma InText(s: string, i: nat, k: nat, end: nat, b: int)
    requires BlanksUpTo(s, i) && DigitsUpTo(s, k, end, b)
    ensures i <= |s| && k <= end <= |s|
  {
  }

  /** Every text is read like that. */
  lemma TextRead(s: string, base: int) returns (i: nat, j: nat, k: nat, end: nat, b: int)
    ensures BlanksUpTo(s, i) && AfterSign(s, i, j) && AfterPrefix(s, j, k, base, b) && DigitsUpTo(s, k, end, b)
  {
    hide Dig, IsDigit, ValueOf, Kernel.Wrap32;
    i := SkipBlanks(s, 0);
    j := if At(s, i) == '+' || At(s, i) == '-' then i + 1 else i;
    b, k := Prefix(s, j, base).0, Prefix(s, j, base).1;
    end := SkipDigits(s, k, b);
  }
}

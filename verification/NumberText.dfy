/**
  The integer printer of lib/vsprintf.c and the parser of lib/strtoul.c, on 32-bit values.
 */
module NumberText {
  import opened Arithmetic

  const M: nat := 0x1_0000_0000

  datatype Flags = Flags(zeropad: bool, sign: bool, plus: bool, space: bool, left: bool, special: bool, large: bool)

  // ----- what the text means -----

  function DigitChar(d: nat, large: bool): char
    requires d < 36
  {
    if d < 10 then '0' + d as char else if large then 'A' + (d - 10) as char else 'a' + (d - 10) as char
  }

  /** n in the given base, without leading zeros. */
  function Digits(n: nat, base: nat, large: bool): (s: seq<char>)
    requires 2 <= base <= 36
    ensures |s| >= 1
    decreases n
  {
    if n < base then [DigitChar(n, large)]
    else
      Less(n, base);
      Digits(n / base, base, large) + [DigitChar(n % base, large)]
  }

  lemma Less(n: nat, base: nat)
    requires n >= base >= 2
    ensures 0 < n / base < n
  {
    HalfAtMost(n, base);
    var q := n / base;
    assert n == base * q + n % base;
  }

  /** The magnitude that is printed: the two's complement value under SIGN, else the word itself. */
  function Magnitude(num: nat, f: Flags): nat
    requires num < M
  {
    if f.sign && num >= M / 2 then M - num else num
  }

  function SignText(num: nat, f: Flags): seq<char> {
    if f.sign then if num >= M / 2 then "-" else if f.plus then "+" else if f.space then " " else "" else ""
  }

  function PrefixText(base: nat, f: Flags): seq<char> {
    if f.special && base == 8 then "0" else if f.special && base == 16 then if f.large then "0X" else "0x" else ""
  }

  function Fill(c: char, n: int): (s: seq<char>)
    ensures |s| == if n > 0 then n else 0
    ensures forall i :: 0 <= i < |s| ==> s[i] == c
  {
    seq(if n > 0 then n else 0, _ => c)
  }

  function Max(a: int, b: int): int { if a > b then a else b }

  /** Padding, sign, prefix, zeros and digits, in the order they are printed. */
  function Render(num: nat, base: nat, size: int, precision: int, f: Flags): seq<char>
    requires num < M && 2 <= base <= 36
  {
    var ds := Digits(Magnitude(num, f), base, f.large);
    var p := Max(precision, |ds|);
    var pad := size - |SignText(num, f)| - |PrefixText(base, f)| - p;
    Lay(f, pad, SignText(num, f), PrefixText(base, f), p - |ds|, ds)
  }

  function Lay(f: Flags, pad: int, sign: seq<char>, prefix: seq<char>, zeros: int, ds: seq<char>): seq<char> {
    (if f.left || f.zeropad then "" else Fill(' ', pad)) + sign + prefix +
    (if f.zeropad && !f.left then Fill('0', pad) else "") + Fill('0', zeros) + ds +
      (if f.left then Fill(' ', pad) else "")
  }

  /** The output is exactly as wide as asked for, or as its parts need. */
  lemma RenderLength(num: nat, base: nat, size: int, precision: int, f: Flags)
    requires num < M && 2 <= base <= 36
    ensures |Render(num, base, size, precision, f)| ==
            Max(size, |SignText(num, f)| + |PrefixText(base, f)| +
                Max(precision, |Digits(Magnitude(num, f), base, f.large)|))
  {
    hide SignText, PrefixText, Digits, Magnitude;
  }

  // ----- the output, part by part -----

  datatype Parts = Parts(lead: seq<char>, sign: seq<char>, prefix: seq<char>, zeros: seq<char>, digits: seq<char>,
                         trail: seq<char>)

  ghost predicate AllAre(s: seq<char>, c: char) { forall i :: 0 <= i < |s| ==> s[i] == c }

  /** The value of a digit or letter, of either case. */
  function DigitOf(c: char): nat {
    if '0' <= c <= '9' then c as nat - 48
    else if 'a' <= c <= 'z' then c as nat - 87
    else if 'A' <= c <= 'Z' then c as nat - 55
    else 36
  }

  /** The number that a sequence of digits denotes. */
  function ValueIn(s: seq<char>, base: nat): nat {
    if s == [] then 0 else ValueIn(s[..|s| - 1], base) * base + DigitOf(s[|s| - 1])
  }

  /** Digits below the base, letters in the case asked for, no leading zero, and their value. */
  ghost predicate Denotes(s: seq<char>, base: nat, large: bool, n: nat) {
    && s != [] && ValueIn(s, base) == n && (s[0] == '0' ==> n == 0)
    && forall i :: 0 <= i < |s| ==>
         DigitOf(s[i]) < base && ('0' <= s[i] <= '9' || (if large then 'A' <= s[i] <= 'Z' else 'a' <= s[i] <= 'z'))
  }

  /** The sign of a word that is read as a signed number. */
  ghost predicate SignIs(sign: seq<char>, num: nat, f: Flags) {
    && (sign == "-" <==> f.sign && num >= 0x8000_0000)
    && (sign == "+" <==> f.sign && num < 0x8000_0000 && f.plus)
    && (sign == " " <==> f.sign && num < 0x8000_0000 && !f.plus && f.space)
    && (sign == "" || |sign| == 1) && (sign != "" ==> sign[0] in {'-', '+', ' '})
  }

  ghost predicate PrefixIs(prefix: seq<char>, base: nat, f: Flags) {
    if f.special && base == 8 then prefix == ['0']
    else if f.special && base == 16 then prefix == ['0', if f.large then 'X' else 'x']
    else prefix == []
  }

  /** What number prints: spaces, sign, prefix, zeros, digits and spaces.  With LEFT the padding stands
      behind the digits, with ZEROPAD it is zeros before them, otherwise it stands before the sign. */
  ghost predicate Printed(num: nat, base: nat, size: int, precision: int, f: Flags, str: seq<char>, l: Parts) {
    && str == l.lead + l.sign + l.prefix + l.zeros + l.digits + l.trail
    && SignIs(l.sign, num, f) && PrefixIs(l.prefix, base, f) && num < 0x1_0000_0000
    && Denotes(l.digits, base, f.large, if l.sign == "-" then 0x1_0000_0000 - num else num)
    && Padded(size, precision, f, l)
  }

  ghost predicate Padded(size: int, precision: int, f: Flags, l: Parts) {
    var least := if precision > |l.digits| then precision else |l.digits|;
    var pad := size - |l.sign| - |l.prefix| - least;
    var fill := if pad > 0 then pad else 0;
    && AllAre(l.lead, ' ') && AllAre(l.zeros, '0') && AllAre(l.trail, ' ')
    && |l.trail| == (if f.left then fill else 0)
    && |l.lead| == (if f.left || f.zeropad then 0 else fill)
    && |l.zeros| == least - |l.digits| + if f.zeropad && !f.left then fill else 0
  }

  lemma {:induction false} DigitsDenote(n: nat, base: nat, large: bool)
    requires 2 <= base <= 36
    ensures Denotes(Digits(n, base, large), base, large, n)
    decreases n
  {
    hide Digits, Denotes, DigitChar;
    DigitsUnfold(n, base, large);
    if n < base {
      OneDenotes(n, base, large);
    } else {
      Less(n, base);
      DigitsDenote(n / base, base, large);
      MoreDenotes(Digits(n / base, base, large), n / base, n % base, base, large);
      assert n == n / base * base + n % base;
    }
  }

  lemma DigitCharIs(d: nat, base: nat, large: bool)
    requires d < base <= 36
    ensures var c := DigitChar(d, large);
            && DigitOf(c) == d && ('0' <= c <= '9' || (if large then 'A' <= c <= 'Z' else 'a' <= c <= 'z'))
            && (c == '0' ==> d == 0)
  {
  }

  lemma OneDenotes(d: nat, base: nat, large: bool)
    requires d < base <= 36
    ensures Denotes([DigitChar(d, large)], base, large, d)
  {
    DigitCharIs(d, base, large);
    hide DigitChar, DigitOf;
    ValuePush([], DigitChar(d, large), base);
    assert [] + [DigitChar(d, large)] == [DigitChar(d, large)];
  }

  lemma ValuePush(s: seq<char>, c: char, base: nat)
    ensures ValueIn([], base) == 0 && ValueIn(s + [c], base) == ValueIn(s, base) * base + DigitOf(c)
  {
    hide DigitOf;
    assert (s + [c])[..|s|] == s;
  }

  lemma MoreDenotes(s: seq<char>, q: nat, d: nat, base: nat, large: bool)
    requires Denotes(s, base, large, q) && d < base <= 36 && q > 0
    ensures Denotes(s + [DigitChar(d, large)], base, large, q * base + d)
  {
    var c := DigitChar(d, large);
    DigitCharIs(d, base, large);
    hide DigitChar, DigitOf, ValueIn;
    ValuePush(s, c, base);
    var t := s + [c];
    forall i | 0 <= i < |t|
      ensures DigitOf(t[i]) < base && ('0' <= t[i] <= '9' || (if large then 'A' <= t[i] <= 'Z' else 'a' <= t[i] <= 'z'))
    {
      assert t[i] == if i < |s| then s[i] else c;
    }
  }

  lemma SignTextIs(num: nat, base: nat, f: Flags)
    ensures SignIs(SignText(num, f), num, f) && PrefixIs(PrefixText(base, f), base, f)
    ensures num < M ==> Magnitude(num, f) == if SignText(num, f) == "-" then 0x1_0000_0000 - num else num
  {
  }

  lemma RenderPrinted(num: nat, base: nat, size: int, precision: int, f: Flags) returns (l: Parts)
    requires num < M && 2 <= base <= 36
    ensures Printed(num, base, size, precision, f, Render(num, base, size, precision, f), l)
  {
    hide Digits, Denotes, SignIs, PrefixIs, SignText, PrefixText, Magnitude, Padded, Lay;
    DigitsDenote(Magnitude(num, f), base, f.large);
    SignTextIs(num, base, f);
    var ds := Digits(Magnitude(num, f), base, f.large);
    l := LayParts(size, precision, f, SignText(num, f), PrefixText(base, f), ds);
  }

  lemma LayParts(size: int, precision: int, f: Flags, sign: seq<char>, prefix: seq<char>, ds: seq<char>)
      returns (l: Parts)
    ensures l.sign == sign && l.prefix == prefix && l.digits == ds && Padded(size, precision, f, l)
    ensures var p := Max(precision, |ds|);
            Lay(f, size - |sign| - |prefix| - p, sign, prefix, p - |ds|, ds) ==
            l.lead + l.sign + l.prefix + l.zeros + l.digits + l.trail
  {
    var p := Max(precision, |ds|);
    var pad := size - |sign| - |prefix| - p;
    var z1, z2 := if f.zeropad && !f.left then Fill('0', pad) else "", Fill('0', p - |ds|);
    var a, e := if f.left || f.zeropad then "" else Fill(' ', pad), if f.left then Fill(' ', pad) else "";
    l := Parts(a, sign, prefix, z1 + z2, ds, e);
    assert (((a + sign) + prefix) + z1) + z2 == ((a + sign) + prefix) + (z1 + z2);
  }

  /** Sign and digits together denote the word as a signed number under SIGN, and as it is otherwise. */
  lemma SignedValue(num: nat, base: nat, size: int, precision: int, f: Flags, str: seq<char>, l: Parts)
    requires num < M && Printed(num, base, size, precision, f, str, l)
    ensures var v: int := ValueIn(l.digits, base);
            (if l.sign == "-" then 0 - v else v) ==
            if f.sign && num >= 0x8000_0000 then num - 0x1_0000_0000 else num
  {
    hide ValueIn, PrefixIs, Padded;
  }

  // ----- number -----

  function Rev(s: seq<char>): (r: seq<char>)
    ensures |r| == |s|
  {
    seq(|s|, i requires 0 <= i < |s| => s[|s| - 1 - i])
  }

  lemma RevPush(s: seq<char>, c: char)
    ensures Rev(s + [c]) == [c] + Rev(s)
  {
  }

  /** At most 32 digits: each one halves what is left. */
  lemma Halves(num: nat, base: nat, i: nat)
    requires base >= 2 && num * Pow2(i) < M
    ensures num / base * Pow2(i + 1) < M
  {
    var q, p := num / base, Pow2(i);
    HalfAtMost(num, base);
    PowStep(i + 1);
    hide Pow2;
    MulLe(2 * q, num, p);
    assert q * (2 * p) == (2 * q) * p;
  }

  lemma HalfAtMost(num: nat, base: nat)
    requires base >= 2
    ensures 2 * (num / base) <= num
  {
    var q := num / base;
    assert num == base * q + num % base;
    MulLe(2, base, q);
  }

  lemma {:induction false} Pow2Large(i: nat)
    requires i >= 32
    ensures Pow2(i) >= M
  {
    if i == 32 {
      assert Pow2(8) == 256;
      assert Pow2(16) == 65536;
      assert Pow2(24) == 0x100_0000;
    } else {
      Pow2Large(i - 1);
    }
  }

  lemma PowStep(i: nat)
    ensures Pow2(i) == if i == 0 then 1 else 2 * Pow2(i - 1)
  {
  }

  /** The digits of num are those of n, followed by the ones in low, which stand in reverse. */
  ghost predicate Split(num: nat, n: nat, base: nat, large: bool, low: seq<char>) {
    2 <= base <= 36 && Digits(num, base, large) == (if n == 0 then [] else Digits(n, base, large)) + Rev(low)
  }

  lemma SplitStep(num: nat, n: nat, base: nat, large: bool, low: seq<char>)
    requires Split(num, n, base, large, low) && n != 0
    ensures n % base < 36 && n / base < n && Split(num, n / base, base, large, low + [DigitChar(n % base, large)])
  {
    hide Digits, DigitChar, Rev;
    OneDigit(n, base, large);
    var c := DigitChar(n % base, large);
    RevPush(low, c);
    Assoc(if n < base then [] else Digits(n / base, base, large), [c], Rev(low));
  }

  lemma SplitBounds(num: nat, base: nat, large: bool)
    requires 2 <= base <= 36
    ensures num != 0 ==> Split(num, num, base, large, [])
    ensures forall low {:trigger Split(num, 0, base, large, low)} :: Split(num, 0, base, large, low) ==>
            Rev(low) == Digits(num, base, large)
  {
    hide Digits;
    assert Rev([]) == [];
  }

  /** The division loop: tmp gets the digits, lowest first, and has room for them. */
  method Divide(num: nat, base: nat, large: bool, tmp: array<char>) returns (i: nat)
    requires num < M && 2 <= base <= 36 && tmp.Length == 66
    modifies tmp
    ensures i <= 32 && Rev(tmp[..i]) == Digits(num, base, large)
  {
    hide Digits, DigitChar, Pow2, Split, Rev, Fits;
    i := 0;
    if num == 0 {
      tmp[i] := '0';
      i := i + 1;
      assert tmp[..1] == ['0'];
      ZeroSplit(base, large);
      return;
    }
    var n: nat := num;
    SplitBounds(num, base, large);
    FitsFirst(num);
    assert tmp[..0] == [];
    while n != 0
      invariant 0 <= i <= 32 && Fits(n, i) && Split(num, n, base, large, tmp[..i])
      decreases n
    {
      SplitStep(num, n, base, large, tmp[..i]);
      FitsNext(n, base, i);
      ghost var low := tmp[..i];
      tmp[i] := DigitChar(n % base, large);
      assert tmp[..i + 1] == low + [tmp[i]];
      n := n / base;
      i := i + 1;
    }
  }

  /** i digits are off, and what is left is small enough for the rest. */
  ghost predicate Fits(n: nat, i: nat) { n * Pow2(i) < M }

  lemma FitsFirst(n: nat)
    requires n < M
    ensures Fits(n, 0)
  {
  }

  lemma FitsNext(n: nat, base: nat, i: nat)
    requires n != 0 && base >= 2 && Fits(n, i)
    ensures i < 32 && Fits(n / base, i + 1)
  {
    hide Pow2;
    Room(n, i);
    Halves(n, base, i);
  }

  lemma ZeroSplit(base: nat, large: bool)
    requires 2 <= base <= 36
    ensures Rev(['0']) == Digits(0, base, large)
  {
  }

  lemma Assoc(a: seq<char>, b: seq<char>, c: seq<char>)
    ensures (a + b) + c == a + (b + c) && [] + c == c
  {
  }

  lemma Room(n: nat, i: nat)
    requires n != 0 && n * Pow2(i) < M
    ensures i < 32
  {
    hide Pow2;
    var p := Pow2(i);
    assert n * p >= p;
    if i >= 32 {
      Pow2Large(i);
    }
  }

  lemma OneDigit(n: nat, base: nat, large: bool)
    requires n != 0 && 2 <= base <= 36
    ensures n / base < n && n % base < 36 && (n / base == 0 <==> n < base)
    ensures Digits(n, base, large) ==
            (if n < base then [] else Digits(n / base, base, large)) + [DigitChar(n % base, large)]
  {
    if n >= base {
      Less(n, base);
    } else {
      Small(n, base);
    }
  }

  lemma Small(n: nat, base: nat)
    requires n < base
    ensures n / base == 0 && n % base == n
  {
  }

  /** The sign, the magnitude and the width that is left. */
  method Header(num: nat, base: int, size: int, f: Flags) returns (sign: seq<char>, n: nat, sz: int)
    requires num < M && 2 <= base <= 36
    ensures sign == SignText(num, f) && n == Magnitude(num, f) && n < M && sz == size - |sign| - |PrefixText(base, f)|
  {
    sign, n, sz := "", num, size;
    if f.sign {
      if n >= M / 2 {
        sign, n, sz := "-", M - n, sz - 1;
      } else if f.plus {
        sign, sz := "+", sz - 1;
      } else if f.space {
        sign, sz := " ", sz - 1;
      }
    }
    if f.special {
      if base == 16 {
        sz := sz - 2;
      } else if base == 8 {
        sz := sz - 1;
      }
    }
  }

  /** number; a null pointer is returned for a base it cannot print. */
  method Number(num: nat, base: int, size: int, precision: int, flags: Flags) returns (ok: bool, str: seq<char>)
    requires num < M
    ensures ok == (2 <= base <= 36)
    ensures ok ==> str == Render(num, base, size, precision, flags)
    ensures ok ==> exists l: Parts :: Printed(num, base, size, precision, flags, str, l)
  {
    hide Digits, Magnitude, SignText, PrefixText, Lay, Rev, Printed;
    var f := flags;
    if f.left {
      f := f.(zeropad := false);
    }
    str := "";
    if base < 2 || base > 36 {
      return false, str;
    }
    ok := true;
    var c := if f.zeropad then '0' else ' ';
    var sign, n, sz := Header(num, base, size, flags);
    var tmp := new char[66];
    var i := Divide(n, base, flags.large, tmp);
    var prec := if i > precision then i else precision;
    var pre := Prefix(base, flags);
    str := Emit(flags, f, c, sz - prec, sign, pre, prec, tmp, i);
    ghost var l := RenderPrinted(num, base, size, precision, flags);
  }

  /** The output loops of number. */
  method Emit(flags: Flags, f: Flags, c: char, size: int, sign: seq<char>, pre: seq<char>, prec: int, tmp: array<char>,
              i: nat)
      returns (str: seq<char>)
    requires f == (if flags.left then flags.(zeropad := false) else flags) && c == (if f.zeropad then '0' else ' ')
    requires i <= tmp.Length && i <= prec
    ensures str == Lay(flags, size, sign, pre, prec - i, Rev(tmp[..i]))
  {
    hide Rev;
    var sz, a, b, e := size, "", "", "";
    if !f.zeropad && !f.left {
      a, sz := Pad(' ', sz);
    }
    if !f.left {
      b, sz := Pad(c, sz);
    }
    var z := Zeros(i, prec);
    var t := Unwind(tmp, i);
    e, sz := Pad(' ', sz);
    assert !f.zeropad && !f.left ==> b == [] && e == [];
    assert f.left || f.zeropad ==> a == "";
    assert !f.left ==> e == [];
    str := a + sign + pre + b + z + t + e;
  }

  method Prefix(base: nat, f: Flags) returns (s: seq<char>)
    ensures s == PrefixText(base, f)
  {
    s := "";
    if f.special {
      if base == 8 {
        s := s + "0";
      } else if base == 16 {
        s := s + "0";
        s := s + (if f.large then "X" else "x");
      }
    }
  }

  /** while (size-- > 0) *str++ = c, which leaves size negative. */
  method Pad(c: char, size: int) returns (s: seq<char>, size': int)
    ensures s == Fill(c, size) && size' < 0
  {
    s, size' := [], size;
    while size' > 0
      invariant size > 0 ==> 0 <= size' <= size && s == Fill(c, size - size')
      invariant size <= 0 ==> s == [] && size' == size
    {
      s := s + [c];
      size' := size' - 1;
    }
    size' := size' - 1;
  }

  method Zeros(i: nat, precision: int) returns (s: seq<char>)
    requires i <= precision
    ensures s == Fill('0', precision - i)
  {
    s := [];
    var p := precision;
    while i < p
      invariant i <= p <= precision && s == Fill('0', precision - p)
    {
      s := s + ['0'];
      p := p - 1;
    }
  }

  method Unwind(tmp: array<char>, n: nat) returns (s: seq<char>)
    requires n <= tmp.Length
    ensures s == Rev(tmp[..n])
  {
    s := [];
    var i := n;
    while i > 0
      invariant 0 <= i <= n && |s| == n - i && forall k :: 0 <= k < n - i ==> s[k] == tmp[n - 1 - k]
    {
      i := i - 1;
      s := s + [tmp[i]];
    }
  }

  // ----- strtoul -----

  function IsDigit(c: char): bool { '0' <= c <= '9' }
  function IsXDigit(c: char): bool { IsDigit(c) || 'a' <= c <= 'f' || 'A' <= c <= 'F' }
  /** The value of a hex digit; 16 and more for other characters. */
  function ValueOf(c: char): nat {
    if IsDigit(c) then c as nat - '0' as nat
    else if 'a' <= c <= 'f' then c as nat - 'a' as nat + 10
    else if 'A' <= c <= 'F' then c as nat - 'A' as nat + 10
    else 16
  }

  /** Strings end with a NUL. */
  function Char(s: seq<char>, i: nat): char { if i < |s| then s[i] else '\0' }

  function Valid(s: seq<char>, i: nat, base: nat): bool { IsXDigit(Char(s, i)) && ValueOf(Char(s, i)) < base }

  /** The base that is used, and where the digits start. */
  function Detect(s: seq<char>, base: nat): (nat, nat) {
    if base != 0 then (base, 0)
    else if Char(s, 0) != '0' then (10, 0)
    else if Char(s, 1) == 'x' && IsXDigit(Char(s, 2)) then (16, 2) else (8, 1)
  }

  /** The value of s[i..j] in the given base. */
  function Horner(s: seq<char>, i: nat, j: nat, base: nat): nat
    decreases j
  {
    if i >= j then 0 else Horner(s, i, j - 1, base) * base + ValueOf(Char(s, j - 1))
  }

  /** The longest run of digits from start on, and its value modulo 2^32. */
  ghost predicate ParsesFrom(s: seq<char>, b: nat, start: nat, result: nat, end: nat) {
    && start <= end && !Valid(s, end, b) && (forall k :: start <= k < end ==> Valid(s, k, b))
    && result == Horner(s, start, end, b) % M
  }

  /** What strtoul promises. */
  ghost predicate Parses(s: seq<char>, base: nat, result: nat, end: nat) {
    ParsesFrom(s, Detect(s, base).0, Detect(s, base).1, result, end)
  }

  /** strtoul: the value and the index of the first character that does not belong to it. */
  method Strtoul(s: seq<char>, base: nat) returns (result: nat, end: nat)
    ensures Parses(s, base, result, end)
  {
    var b, cp := base, 0;
    if b == 0 {
      b := 10;
      if Char(s, cp) == '0' {
        b := 8;
        cp := cp + 1;
        if Char(s, cp) == 'x' && IsXDigit(Char(s, cp + 1)) {
          cp := cp + 1;
          b := 16;
        }
      }
    }
    ghost var start := cp;
    assert (b, start) == Detect(s, base);
    hide Detect;
    result := 0;
    while Valid(s, cp, b)
      invariant start <= cp && (cp <= |s| || cp == start) && forall k :: start <= k < cp ==> Valid(s, k, b)
      invariant result == Horner(s, start, cp, b) % M
      decreases |s| - cp
    {
      ModStep(Horner(s, start, cp, b), b, ValueOf(Char(s, cp)));
      result := (result * b + ValueOf(Char(s, cp))) % M;
      cp := cp + 1;
    }
    end := cp;
  }

  lemma ModStep(h: nat, b: nat, v: nat)
    ensures (h % M * b + v) % M == (h * b + v) % M
  {
    var q, r := h / M, h % M;
    assert h * b == (q * M + r) * b == q * b * M + r * b;
    DropMultiple(r * b + v, q * b, M);
  }

  // ----- the round trip -----

  lemma DigitIs(d: nat, base: nat, large: bool)
    requires d < base <= 16
    ensures var c := DigitChar(d, large);
            IsXDigit(c) && ValueOf(c) == d && (c == '0' <==> d == 0) && (d < 10 ==> IsDigit(c))
  {
  }

  lemma {:induction false} HornerSame(s: seq<char>, i: nat, t: seq<char>, n: nat, base: nat)
    requires forall k {:trigger Char(t, k)} :: 0 <= k < n ==> Char(t, k) == Char(s, i + k)
    ensures Horner(s, i, i + n, base) == Horner(t, 0, n, base)
    decreases n
  {
    if n > 0 {
      HornerSame(s, i, t, n - 1, base);
      assert Char(t, n - 1) == Char(s, i + (n - 1));
    }
  }

  /** The digits of n are digits of the base, their value is n, and there is no leading zero. */
  lemma {:induction false} DigitsValue(n: nat, base: nat, large: bool)
    requires 2 <= base <= 16
    ensures var ds := Digits(n, base, large);
            && Horner(ds, 0, |ds|, base) == n
            && (forall k :: 0 <= k < |ds| ==> Valid(ds, k, base))
            && (ds[0] == '0' <==> n == 0)
    decreases n
  {
    hide DigitChar, IsXDigit, ValueOf, Horner, Valid, Digits;
    DigitsUnfold(n, base, large);
    if n < base {
      SingleDigit(n, base, large);
    } else {
      Less(n, base);
      var q, d := n / base, n % base;
      assert n == q * base + d && d < base;
      DigitsValue(q, base, large);
      DigitIs(d, base, large);
      DigitsAppend(Digits(q, base, large), DigitChar(d, large), base, q, d);
    }
  }

  lemma DigitsUnfold(n: nat, base: nat, large: bool)
    requires 2 <= base <= 36
    ensures Digits(n, base, large) ==
            if n < base then [DigitChar(n, large)] else Digits(n / base, base, large) + [DigitChar(n % base, large)]
  {
    hide DigitChar;
  }

  lemma SingleDigit(d: nat, base: nat, large: bool)
    requires d < base <= 16
    ensures var ds := [DigitChar(d, large)];
            Horner(ds, 0, 1, base) == d && (forall k :: 0 <= k < |ds| ==> Valid(ds, k, base)) &&
              (ds[0] == '0' <==> d == 0)
  {
    hide DigitChar, IsXDigit, ValueOf;
    DigitIs(d, base, large);
    var ds := [DigitChar(d, large)];
    assert Horner(ds, 0, 0, base) == 0;
    assert 0 * base == 0;
  }

  lemma DigitsAppend(ds: seq<char>, c: char, base: nat, q: nat, d: nat)
    requires |ds| >= 1 && base >= 2 && Horner(ds, 0, |ds|, base) == q && ValueOf(c) == d < base && IsXDigit(c)
    requires forall k :: 0 <= k < |ds| ==> Valid(ds, k, base)
    ensures var t := ds + [c];
            Horner(t, 0, |t|, base) == q * base + d && t[0] == ds[0] && forall k :: 0 <= k < |t| ==> Valid(t, k, base)
  {
    hide IsXDigit, ValueOf;
    var t := ds + [c];
    HornerSame(t, 0, ds, |ds|, base);
    forall k | 0 <= k < |t|
      ensures Valid(t, k, base)
    {
      assert k < |ds| ==> Valid(ds, k, base) && t[k] == ds[k];
    }
  }

  lemma {:induction false} LeadingZeros(s: seq<char>, i: nat, z: nat, j: nat, base: nat)
    requires i + z <= j && forall k :: i <= k < i + z ==> Char(s, k) == '0'
    ensures Horner(s, i, j, base) == Horner(s, i + z, j, base)
    decreases j
  {
    if i < j {
      if j == i + z {
        LeadingZeros(s, i, z - 1, j - 1, base);
      } else {
        LeadingZeros(s, i, z, j - 1, base);
      }
    }
  }

  /** From `start` on, s reads: z zeros, the digits of n, and something that is no digit. */
  ghost predicate Reads(s: seq<char>, start: nat, z: nat, ds: seq<char>, rest: seq<char>) {
    start <= |s| && s[start..] == Fill('0', z) + ds + rest && !IsXDigit(Char(rest, 0))
  }

  lemma ReadsAt(s: seq<char>, start: nat, z: nat, ds: seq<char>, rest: seq<char>, k: nat)
    requires Reads(s, start, z, ds, rest) && start <= k
    ensures k < start + z ==> Char(s, k) == '0'
    ensures start + z <= k < start + z + |ds| ==> Char(s, k) == ds[k - start - z]
    ensures k == start + z + |ds| ==> Char(s, k) == Char(rest, 0)
  {
    var t := Fill('0', z) + ds + rest;
    assert |s| == start + |t|;
    if k < |s| {
      assert s[k] == t[k - start];
    }
  }

  /** Such a text parses to n, and the end is where the digits end. */
  lemma ReadsValue(s: seq<char>, start: nat, z: nat, n: nat, base: nat, large: bool, rest: seq<char>, end: nat)
    requires 2 <= base <= 16 && Reads(s, start, z, Digits(n, base, large), rest)
    requires start <= end && !Valid(s, end, base) && forall k :: start <= k < end ==> Valid(s, k, base)
    ensures end == start + z + |Digits(n, base, large)| && Horner(s, start, end, base) == n
  {
    hide Digits, Reads, Horner, IsXDigit, ValueOf;
    var ds := Digits(n, base, large);
    var e := start + z + |ds|;
    DigitsValue(n, base, large);
    ReadsEnd(s, start, z, ds, rest, base, end);
    forall k | start <= k < start + z
      ensures Char(s, k) == '0'
    {
      ReadsAt(s, start, z, ds, rest, k);
    }
    LeadingZeros(s, start, z, e, base);
    forall k | 0 <= k < |ds|
      ensures Char(ds, k) == Char(s, start + z + k)
    {
      ReadsAt(s, start, z, ds, rest, start + z + k);
    }
    HornerSame(s, start + z, ds, |ds|, base);
  }

  lemma FromValue(s: seq<char>, start: nat, z: nat, n: nat, base: nat, large: bool, rest: seq<char>, result: nat,
                  end: nat)
    requires 2 <= base <= 16 && Reads(s, start, z, Digits(n, base, large), rest) && n < M &&
             ParsesFrom(s, base, start, result, end)
    ensures end == start + z + |Digits(n, base, large)| && result == n
  {
    hide Digits, Reads, Horner, Valid;
    ReadsValue(s, start, z, n, base, large, rest, end);
  }

  lemma ReadsEnd(s: seq<char>, start: nat, z: nat, ds: seq<char>, rest: seq<char>, base: nat, end: nat)
    requires Reads(s, start, z, ds, rest) && base >= 2 && forall k :: 0 <= k < |ds| ==> Valid(ds, k, base)
    requires start <= end && !Valid(s, end, base) && forall k :: start <= k < end ==> Valid(s, k, base)
    ensures end == start + z + |ds|
  {
    var e := start + z + |ds|;
    ReadsAt(s, start, z, ds, rest, e);
    assert !Valid(s, e, base);
    forall k | start <= k < e
      ensures Valid(s, k, base)
    {
      ReadsAt(s, start, z, ds, rest, k);
      if start + z <= k {
        assert Valid(ds, k - start - z, base);
      }
    }
  }

  /** How far the width exceeds what is printed. */
  function Slack(num: nat, base: nat, size: int, precision: int, f: Flags): int
    requires num < M && 2 <= base <= 36
  {
    size - |SignText(num, f)| - |PrefixText(base, f)| - Max(precision, |Digits(Magnitude(num, f), base, f.large)|)
  }

  /** Nothing stands before the prefix: no sign and no spaces. */
  ghost predicate Bare(num: nat, base: nat, size: int, precision: int, f: Flags) {
    num < M && 2 <= base <= 16 && SignText(num, f) == "" &&
      (f.left || f.zeropad || Slack(num, base, size, precision, f) <= 0)
  }

  function ZerosOf(num: nat, base: nat, size: int, precision: int, f: Flags): (z: nat)
    requires num < M && 2 <= base <= 36
  {
    var n := |Digits(Magnitude(num, f), base, f.large)|;
    Max(precision, n) - n + if f.zeropad && !f.left then Max(Slack(num, base, size, precision, f), 0) else 0
  }

  function Trailing(num: nat, base: nat, size: int, precision: int, f: Flags): seq<char>
    requires num < M && 2 <= base <= 36
  {
    if f.left then Fill(' ', Slack(num, base, size, precision, f)) else ""
  }

  /** A bare output is its prefix, zeros, digits and trailing spaces. */
  lemma BareParts(num: nat, base: nat, size: int, precision: int, f: Flags)
    requires Bare(num, base, size, precision, f)
    ensures Magnitude(num, f) == num
    ensures Render(num, base, size, precision, f) ==
            PrefixText(base, f) + Fill('0', ZerosOf(num, base, size, precision, f)) + Digits(num, base, f.large) +
              Trailing(num, base, size, precision, f)
  {
    hide Digits, PrefixText;
    var ds := Digits(num, base, f.large);
    var pad := Slack(num, base, size, precision, f);
    var p := Max(precision, |ds|);
    LayBare(f, pad, PrefixText(base, f), p - |ds|, ds);
  }

  lemma LayBare(f: Flags, pad: int, prefix: seq<char>, z: nat, ds: seq<char>)
    requires f.left || f.zeropad || pad <= 0
    ensures Lay(f, pad, "", prefix, z, ds) ==
            prefix + Fill('0', z + if f.zeropad && !f.left then Max(pad, 0) else 0) + ds +
              (if f.left then Fill(' ', pad) else "")
  {
    var pads := if f.zeropad && !f.left then Fill('0', pad) else "";
    var all := Fill('0', z + if f.zeropad && !f.left then Max(pad, 0) else 0);
    assert pads + Fill('0', z) == all;
    assert (if f.left || f.zeropad then "" else Fill(' ', pad)) == "";
    assert "" + "" + prefix == prefix;
    assert prefix + pads + Fill('0', z) == prefix + (pads + Fill('0', z));
  }

  /** The text that strtoul sees: an output and what follows it, which must not go on with a digit. */
  ghost predicate Text(s: seq<char>, num: nat, base: nat, size: int, precision: int, f: Flags, tail: seq<char>) {
    && Bare(num, base, size, precision, f) && !IsXDigit(Char(tail, 0)) && Char(tail, 0) != 'x'
    && s == Render(num, base, size, precision, f) + tail
  }

  lemma TextReads(s: seq<char>, num: nat, base: nat, size: int, precision: int, f: Flags, tail: seq<char>)
    requires Text(s, num, base, size, precision, f, tail)
    ensures var p := PrefixText(base, f); var rest := Trailing(num, base, size, precision, f) + tail;
            && Reads(s, |p|, ZerosOf(num, base, size, precision, f), Digits(num, base, f.large), rest)
            && s[..|p|] == p && Char(rest, 0) != 'x'
            && |s| == |p| + ZerosOf(num, base, size, precision, f) + |Digits(num, base, f.large)| + |rest|
  {
    hide Render, Digits, PrefixText, ZerosOf;
    BareParts(num, base, size, precision, f);
    var p, z := PrefixText(base, f), Fill('0', ZerosOf(num, base, size, precision, f));
    var ds, t := Digits(num, base, f.large), Trailing(num, base, size, precision, f);
    assert s == p + (z + ds + (t + tail));
    assert s[|p|..] == z + ds + (t + tail);
    assert t == [] ==> t + tail == tail;
  }

  /** Where the digits of an output end. */
  ghost predicate EndsAt(s: seq<char>, num: nat, base: nat, size: int, precision: int, f: Flags, tail: seq<char>,
                         end: int) {
    num < M && 2 <= base <= 36 && end == |s| - |tail| - |Trailing(num, base, size, precision, f)|
  }

  /** An output without prefix parses back under its own base, padded with zeros or not. */
  lemma SameBase(s: seq<char>, num: nat, base: nat, size: int, precision: int, f: Flags, tail: seq<char>, result: nat,
                 end: nat)
    requires Text(s, num, base, size, precision, f, tail) && PrefixText(base, f) == ""
    requires Parses(s, base, result, end)
    ensures result == num && EndsAt(s, num, base, size, precision, f, tail, end)
  {
    hide Render, Digits, Reads, ParsesFrom, Trailing, ZerosOf;
    TextReads(s, num, base, size, precision, f, tail);
    FromValue(s, 0, ZerosOf(num, base, size, precision, f), num, base, f.large,
              Trailing(num, base, size, precision, f) + tail, result, end);
  }

  /** An octal output with its prefix parses back under base 0, and under base 8. */
  lemma OctalPrefix(s: seq<char>, num: nat, size: int, precision: int, f: Flags, tail: seq<char>, base: nat,
                    result: nat, end: nat)
    requires Text(s, num, 8, size, precision, f, tail) && f.special && (base == 0 || base == 8)
    requires Parses(s, base, result, end)
    ensures result == num && EndsAt(s, num, 8, size, precision, f, tail, end)
  {
    hide Render, Digits, Reads, ParsesFrom, Trailing, ZerosOf, Detect;
    TextReads(s, num, 8, size, precision, f, tail);
    var z, ds, rest := ZerosOf(num, 8, size, precision, f), Digits(num, 8, f.large),
        Trailing(num, 8, size, precision, f) + tail;
    assert s[..1] == "0" && Char(s, 0) == s[..1][0] == '0';
    if base == 0 {
      DetectOctal(s, z, num, f.large, rest);
      FromValue(s, 1, z, num, 8, f.large, rest, result, end);
    } else {
      MoreZeros(s, z, ds, rest);
      DetectGiven(s, 8);
      FromValue(s, 0, z + 1, num, 8, f.large, rest, result, end);
    }
  }

  lemma DetectGiven(s: seq<char>, base: nat)
    requires base != 0
    ensures Detect(s, base) == (base, 0)
  {
  }

  lemma FirstChar(s: seq<char>, start: nat, z: nat, n: nat, base: nat, large: bool, rest: seq<char>)
    requires 2 <= base <= 16 && Reads(s, start, z, Digits(n, base, large), rest)
    ensures Valid(s, start, base) && (z == 0 ==> (Char(s, start) == '0' <==> n == 0))
  {
    hide Digits, Reads, Horner;
    var ds := Digits(n, base, large);
    DigitsValue(n, base, large);
    ReadsAt(s, start, z, ds, rest, start);
    assert Valid(ds, 0, base) && Char(ds, 0) == ds[0];
  }

  lemma DetectOctal(s: seq<char>, z: nat, n: nat, large: bool, rest: seq<char>)
    requires Char(s, 0) == '0' && Reads(s, 1, z, Digits(n, 8, large), rest)
    ensures Detect(s, 0) == (8, 1)
  {
    hide Digits, Reads;
    FirstChar(s, 1, z, n, 8, large, rest);
  }

  lemma MoreZeros(s: seq<char>, z: nat, ds: seq<char>, rest: seq<char>)
    requires Reads(s, 1, z, ds, rest) && Char(s, 0) == '0'
    ensures Reads(s, 0, z + 1, ds, rest)
  {
    assert Fill('0', z + 1) == "0" + Fill('0', z);
    assert s[0..] == [s[0]] + s[1..];
  }

  /**
    A hexadecimal output with its prefix parses back under base 0 exactly when the prefix is in
    lower case, or the value is zero: after "0X" the parser reads an octal zero and stops.
   */
  lemma HexPrefix(s: seq<char>, num: nat, size: int, precision: int, f: Flags, tail: seq<char>, result: nat, end: nat)
    requires Text(s, num, 16, size, precision, f, tail) && f.special
    requires Parses(s, 0, result, end)
    ensures result == num <==> !f.large || num == 0
    ensures EndsAt(s, num, 16, size, precision, f, tail, end) <==> !f.large
  {
    hide Render, Digits, Reads, ParsesFrom, Trailing, ZerosOf, Detect;
    TextReads(s, num, 16, size, precision, f, tail);
    var z, ds, rest := ZerosOf(num, 16, size, precision, f), Digits(num, 16, f.large),
        Trailing(num, 16, size, precision, f) + tail;
    assert s[..2] == PrefixText(16, f);
    assert Char(s, 0) == s[..2][0] == '0' && Char(s, 1) == s[..2][1];
    if f.large {
      DetectNone(s);
      ParsesNothing(s, 1, 8, result, end);
    } else {
      DetectHex(s, z, num, rest);
      FromValue(s, 2, z, num, 16, false, rest, result, end);
    }
  }

  lemma DetectHex(s: seq<char>, z: nat, n: nat, rest: seq<char>)
    requires Char(s, 0) == '0' && Char(s, 1) == 'x' && Reads(s, 2, z, Digits(n, 16, false), rest)
    ensures Detect(s, 0) == (16, 2)
  {
    hide Digits, Reads;
    FirstChar(s, 2, z, n, 16, false, rest);
  }

  lemma DetectNone(s: seq<char>)
    requires Char(s, 0) == '0' && Char(s, 1) != 'x' && !IsXDigit(Char(s, 1))
    ensures Detect(s, 0) == (8, 1) && !Valid(s, 1, 8)
  {
  }

  lemma ParsesNothing(s: seq<char>, start: nat, b: nat, result: nat, end: nat)
    requires ParsesFrom(s, b, start, result, end) && !Valid(s, start, b)
    ensures result == 0 && end == start
  {
  }

  /**
    A decimal output parses back under base 0 exactly when it has no added zeros, or the value is below
    eight: behind a zero the parser reads its digits as octal, up to the first 8 or 9.
   */
  lemma Decimal(s: seq<char>, num: nat, size: int, precision: int, f: Flags, tail: seq<char>, result: nat, end: nat)
    requires Text(s, num, 10, size, precision, f, tail) && Parses(s, 0, result, end)
    ensures result == num <==> ZerosOf(num, 10, size, precision, f) == 0 || num < 8
    ensures result == num ==> EndsAt(s, num, 10, size, precision, f, tail, end)
  {
    hide Render, Digits, Reads, ParsesFrom, Trailing, ZerosOf, Detect;
    TextReads(s, num, 10, size, precision, f, tail);
    var z, rest := ZerosOf(num, 10, size, precision, f), Trailing(num, 10, size, precision, f) + tail;
    if z == 0 {
      PlainDecimal(s, num, f.large, rest, result, end);
    } else if num < 8 {
      PaddedSmall(s, z, num, f.large, rest, result, end);
    } else {
      PaddedLarge(s, z, num, f.large, rest, result, end);
    }
  }

  lemma PlainDecimal(s: seq<char>, num: nat, large: bool, rest: seq<char>, result: nat, end: nat)
    requires num < M && Reads(s, 0, 0, Digits(num, 10, large), rest) && Char(rest, 0) != 'x' &&
             Parses(s, 0, result, end)
    ensures result == num && end == |Digits(num, 10, large)|
  {
    hide Digits, Reads, ParsesFrom, Detect;
    var ds := Digits(num, 10, large);
    FirstChar(s, 0, 0, num, 10, large, rest);
    if num == 0 {
      ZeroDigits(10, large);
      ReadsAt(s, 0, 0, ds, rest, 1);
      NotDigit(s, 0, 0, ds, rest);
      DetectNone(s);
      ParsesNothing(s, 1, 8, result, end);
    } else {
      DetectDecimal(s);
      FromValue(s, 0, 0, num, 10, large, rest, result, end);
    }
  }

  /** Behind an added zero the parser reads octal. */
  lemma DetectPadded(s: seq<char>, z: nat, num: nat, large: bool, rest: seq<char>)
    requires z > 0 && Reads(s, 0, z, Digits(num, 10, large), rest)
    ensures Detect(s, 0) == (8, 1) && Reads(s, 1, z - 1, Digits(num, 10, large), rest)
  {
    hide Digits;
    FewerZeros(s, z, Digits(num, 10, large), rest);
    ReadsAt(s, 0, z, Digits(num, 10, large), rest, 0);
    hide Reads;
    FirstChar(s, 1, z - 1, num, 10, large, rest);
  }

  lemma FewerZeros(s: seq<char>, z: nat, ds: seq<char>, rest: seq<char>)
    requires z > 0 && Reads(s, 0, z, ds, rest)
    ensures Reads(s, 1, z - 1, ds, rest)
  {
    var t := Fill('0', z) + ds + rest;
    assert s[0..] == s;
    assert Fill('0', z)[1..] == Fill('0', z - 1);
    assert t[1..] == Fill('0', z - 1) + ds + rest;
  }

  lemma PaddedSmall(s: seq<char>, z: nat, num: nat, large: bool, rest: seq<char>, result: nat, end: nat)
    requires z > 0 && num < 8 && Reads(s, 0, z, Digits(num, 10, large), rest) && Parses(s, 0, result, end)
    ensures result == num && end == z + |Digits(num, 10, large)|
  {
    hide Reads, ParsesFrom, Detect, DigitChar;
    DetectPadded(s, z, num, large, rest);
    assert Digits(num, 10, large) == Digits(num, 8, large);
    FromValue(s, 1, z - 1, num, 8, large, rest, result, end);
  }

  lemma PaddedLarge(s: seq<char>, z: nat, num: nat, large: bool, rest: seq<char>, result: nat, end: nat)
    requires z > 0 && 8 <= num < M && Reads(s, 0, z, Digits(num, 10, large), rest) && Parses(s, 0, result, end)
    ensures result != num
  {
    hide Digits, Reads, Detect, Horner, IsXDigit, ValueOf;
    var ds := Digits(num, 10, large);
    DetectPadded(s, z, num, large, rest);
    DigitsValue(num, 10, large);
    OctalRun(s, z, ds, rest, end);
    var m := end - z;
    hide Valid;
    if |ds| == 1 {
      AloneLarge(ds, num, m);
    } else {
      OctalBelow(ds, m, |ds|);
    }
  }

  /** The octal digits that are read: the zeros, and the first digits of ds. */
  lemma OctalRun(s: seq<char>, z: nat, ds: seq<char>, rest: seq<char>, end: nat)
    requires z > 0 && Reads(s, 1, z - 1, ds, rest)
    requires 1 <= end && !Valid(s, end, 8) && forall k :: 1 <= k < end ==> Valid(s, k, 8)
    ensures z <= end <= z + |ds| && Horner(s, 1, end, 8) == Horner(ds, 0, end - z, 8)
    ensures forall k :: 0 <= k < end - z ==> Valid(ds, k, 8)
  {
    hide Horner, Reads;
    if end < z { ReadsAt(s, 1, z - 1, ds, rest, end); }
    ReadsAt(s, 1, z - 1, ds, rest, z + |ds|);
    NotDigit(s, 1, z - 1, ds, rest);
    assert end > z + |ds| ==> Valid(s, z + |ds|, 8);
    forall k | 1 <= k < z
      ensures Char(s, k) == '0'
    {
      ReadsAt(s, 1, z - 1, ds, rest, k);
    }
    LeadingZeros(s, 1, z - 1, end, 8);
    forall k | 0 <= k < end - z
      ensures Char(ds, k) == Char(s, z + k) && Valid(ds, k, 8)
    {
      ReadsAt(s, 1, z - 1, ds, rest, z + k);
      assert Valid(s, z + k, 8);
    }
    HornerSame(s, z, ds, end - z, 8);
  }

  /** A single 8 or 9 is not read at all. */
  lemma AloneLarge(ds: seq<char>, num: nat, m: nat)
    requires |ds| == 1 && Horner(ds, 0, 1, 10) == num >= 8 && m <= 1 && forall k :: 0 <= k < m ==> Valid(ds, k, 8)
    ensures m == 0 && Horner(ds, 0, m, 8) == 0
  {
    hide IsXDigit, ValueOf;
    assert Horner(ds, 0, 0, 10) == 0;
    assert m == 1 ==> Valid(ds, 0, 8);
  }

  /** Digits of a number of two digits or more, or some of them, denote less in octal. */
  lemma {:induction false} OctalBelow(ds: seq<char>, m: nat, n: nat)
    requires m <= n <= |ds| && n >= 1 && ds[0] != '0' && forall k :: 0 <= k < |ds| ==> Valid(ds, k, 10)
    ensures 1 <= Horner(ds, 0, n, 10) && Horner(ds, 0, m, 8) <= Horner(ds, 0, n, 10)
    ensures n >= 2 ==> Horner(ds, 0, m, 8) < Horner(ds, 0, n, 10)
    decreases n
  {
    if n == 1 {
      LeadingDigit(ds);
      assert Horner(ds, 0, 0, 10) == 0 && Horner(ds, 0, 0, 8) == 0;
      hide Valid, ValueOf;
    } else {
      hide Valid, ValueOf;
      OctalBelow(ds, if m == n then n - 1 else m, n - 1);
    }
  }

  lemma LeadingDigit(ds: seq<char>)
    requires |ds| >= 1 && ds[0] != '0' && Valid(ds, 0, 10)
    ensures ValueOf(Char(ds, 0)) >= 1
  {
  }

  lemma ZeroDigits(base: nat, large: bool)
    requires 2 <= base <= 36
    ensures |Digits(0, base, large)| == 1
  {
  }

  lemma NotDigit(s: seq<char>, start: nat, z: nat, ds: seq<char>, rest: seq<char>)
    requires Reads(s, start, z, ds, rest)
    ensures !IsXDigit(Char(rest, 0))
  {
  }

  lemma DetectDecimal(s: seq<char>)
    requires Char(s, 0) != '0'
    ensures Detect(s, 0) == (10, 0)
  {
  }

  /** number, then strtoul under the same base. */
  method PrintThenParse(num: nat, base: nat) returns (result: nat)
    requires num < M && 2 <= base <= 16
    ensures result == num
  {
    hide Render, Digits, Parses;
    var f := Flags(false, false, false, false, false, false, false);
    var ok, str := Number(num, base, 0, 0, f);
    PlainText(str, num, base, f);
    var end;
    result, end := Strtoul(str, base);
    SameBase(str, num, base, 0, 0, f, "", result, end);
  }

  lemma PlainText(s: seq<char>, num: nat, base: nat, f: Flags)
    requires num < M && 2 <= base <= 16 && f == Flags(false, false, false, false, false, false, false)
    requires s == Render(num, base, 0, 0, f)
    ensures Text(s, num, base, 0, 0, f, "")
  {
    hide Render, Digits;
    assert s + "" == s;
  }
}

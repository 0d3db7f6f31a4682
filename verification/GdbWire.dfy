/**
  What stands on the serial line, character by character: digits, register and memory text, escapes,
  packets and their replies.
 */
module GdbWire {
  import opened GdbCodec
  import opened GdbPacket
  import opened GdbCommands

  /** The character of a four-bit value, and the characters that have a value, of either case; all other
      characters count as zero. */
  lemma DigitChars(n: nat, h: byte)
    requires n < 16
    ensures HexDigit(n) == "0123456789abcdef"[n] as int && HexValue(h) < 16
    ensures n > 0 ==>
              (HexValue(h) == n <==> h == "0123456789abcdef"[n] as int || h == "0123456789ABCDEF"[n] as int)
  {
  }

  /** Each byte is two characters, the upper half first. */
  lemma HexText(bs: seq<byte>, i: nat)
    requires i < |bs|
    ensures |Hex(bs)| == 2 * |bs|
    ensures Hex(bs)[2 * i] == "0123456789abcdef"[bs[i] / 16] as int
    ensures Hex(bs)[2 * i + 1] == "0123456789abcdef"[bs[i] % 16] as int
  {
    DigitChars(bs[i] / 16, 0);
    DigitChars(bs[i] % 16, 0);
    hide HexDigit;
  }

  lemma UnhexText(h: seq<byte>, n: nat, i: nat)
    requires 2 * n <= |h| && i < n
    ensures Unhex(h, n)[i] == 16 * HexValue(h[2 * i]) + HexValue(h[2 * i + 1])
  {
  }

  // ----- escapes -----

  /** One unit of escaped text: '}' and a character with bit 5 inverted, or a character as it is. */
  lemma UnitText(x: seq<byte>, n: nat)
    requires n > 0 && XFits(x, n)
    ensures x != [] && (x[0] == '}' as int ==> |x| > 1)
    ensures XBytes(x, n) == if x[0] == '}' as int then [(x[1] as bv8 ^ 0x20) as int] + XBytes(x[2..], n - 1)
                            else [x[0]] + XBytes(x[1..], n - 1)
  {
    if |x| > 1 { FlipIs(x[1]); }
    hide Flip, XBytes;
    XStep(x, n);
  }

  lemma FlipIs(b: byte)
    ensures Flip(b) == (b as bv8 ^ 0x20) as int
  {
  }

  // ----- packets -----

  /** '$', the payload, '#', and two digits of the sum of its bytes. */
  lemma FrameText(p: seq<byte>)
    ensures var f, sum := Frame(p), Total(p) % 256;
            && |f| == |p| + 4 && f[0] == '$' as int && f[1..1 + |p|] == p && f[|p| + 1] == '#' as int
            && f[|p| + 2] == "0123456789abcdef"[sum / 16] as int
            && f[|p| + 3] == "0123456789abcdef"[sum % 16] as int
  {
    var sum := Total(p) % 256;
    DigitChars(sum / 16, 0);
    DigitChars(sum % 16, 0);
    hide Total, HexDigit;
  }

  /** What is accepted stood between '$' and '#' and has the sum behind it; every packet before it was
      answered with '-', and it with '+'. */
  lemma {:induction false} AcceptedText(s: seq<byte>) returns (i: nat, j: nat)
    requires Receive(s).Got?
    ensures var r := Receive(s);
            && 0 < i <= j && j + 2 < |s| && s[i - 1] == '$' as int && s[j] == '#' as int
            && '#' as int !in s[i..j] && r.payload == s[i..j] && r.rest == s[j + 3..]
            && Total(s[i..j]) % 256 == 16 * HexValue(s[j + 1]) + HexValue(s[j + 2])
            && r.replies != [] && r.replies[|r.replies| - 1] == '+' as int
    ensures forall k :: 0 <= k < |Receive(s).replies| - 1 ==> Receive(s).replies[k] == '-' as int
  {
    i, j := ReceiveSound(s);
    RepliesText(s);
    hide Receive, Total;
  }

  lemma {:induction false} RepliesText(s: seq<byte>)
    requires Receive(s).Got?
    ensures var q := Receive(s).replies;
            && q != [] && q[|q| - 1] == '+' as int
            && forall k :: 0 <= k < |q| - 1 ==> q[k] == '-' as int
    decreases |s|
  {
    hide Receive, Sum;
    var i, j := ReceiveCases(s);
    if Sum(s[i..j]) != HexValue(s[j + 1]) * 16 + HexValue(s[j + 2]) {
      RepliesText(s[j + 3..]);
    }
  }

  /** The longest payload that fits the buffer of 200 has 198 characters. */
  lemma BufferHolds(noise: seq<byte>, p: seq<byte>, rest: seq<byte>)
    requires '$' as int !in noise && '#' as int !in p
    ensures StreamFits(noise + Frame(p) + rest) <==> |p| <= 198
  {
    hide StreamFits, BodyFits, Sum;
    if |p| <= 198 {
      FrameFits(noise, p, rest);
    } else {
      TooLong(noise, p, rest);
    }
  }

  lemma TooLong(noise: seq<byte>, p: seq<byte>, rest: seq<byte>)
    requires '$' as int !in noise && '#' as int !in p && |p| > 198
    ensures !StreamFits(noise + Frame(p) + rest)
  {
    hide Sum, First;
    var sum := Sum(p);
    var a, b := HexDigit(sum / 16), HexDigit(sum % 16);
    var t := p + [HASH] + ([a, b] + rest);
    var s := noise + [DOLLAR] + t;
    assert noise + Frame(p) + rest == s;
    FirstSkips(noise, DOLLAR, t);
    assert s[|noise| + 1..] == t;
    FirstSkips(p, HASH, [a, b] + rest);
  }

  // ----- registers -----

  /** The text of a register is its value as eight hex digits, the highest first. */
  lemma RegisterText(t: seq<byte>, id: nat)
    requires 8 * id + 8 <= |t|
    ensures RegText(t, id) == HexNumber(t[8 * id..8 * id + 8])
  {
    var h := t[8 * id..8 * id + 8];
    EightDigits(h);
    hide HexNumber, HexValue;
  }

  lemma EightDigits(h: seq<byte>)
    requires |h| == 8
    ensures HexNumber(h) == ((((((HexValue(h[0]) * 16 + HexValue(h[1])) * 16 + HexValue(h[2])) * 16 +
                             HexValue(h[3])) * 16 + HexValue(h[4])) * 16 + HexValue(h[5])) * 16 +
                             HexValue(h[6])) * 16 + HexValue(h[7])
  {
    hide HexValue;
    NoNumber();
    forall k | 0 <= k < 8
      ensures HexNumber(h[..k + 1]) == HexNumber(h[..k]) * 16 + HexValue(h[k])
    {
      assert h[..k + 1] == h[..k] + [h[k]];
      NextDigit(h[..k], h[k]);
    }
    assert h[..8] == h && h[..0] == [];
  }

  /** The reply to g: 23 registers of eight digits each, in the order of the register file. */
  lemma ReplyText(regs: seq<nat>, id: nat)
    requires |regs| == 23 && RegsOk(regs) && id < 23
    ensures var t := Hex(FileBytes(regs, 23));
            |t| == 184 && HexNumber(t[8 * id..8 * id + 8]) == regs[id]
  {
    hide RegsOk, FileBytes, Hex, HexNumber, RegText;
    var t := Hex(FileBytes(regs, 23));
    RegistersRoundTrip(regs, [], id);
    assert t + [] == t;
    RegisterText(t, id);
  }
}

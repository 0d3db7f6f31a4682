/**
  Packets of the GDB Remote Serial Protocol as testrom/gdb.c sends and receives them, and the
  register and memory commands on top of the codecs.
 */
module GdbPacket {
  import opened GdbCodec

  const DOLLAR: byte := 0x24
  const HASH: byte := 0x23
  const PLUS: byte := 0x2B
  const MINUS: byte := 0x2D

  function Total(s: seq<byte>): nat { if s == [] then 0 else Total(s[..|s| - 1]) + s[|s| - 1] }

  /** Checksum of a text. */
  function Sum(s: seq<byte>): byte { Total(s) % 256 }

  lemma {:induction false} TotalConcat(a: seq<byte>, b: seq<byte>)
    ensures Total(a + b) == Total(a) + Total(b)
    decreases |b|
  {
    if b == [] {
      assert a + b == a;
    } else {
      var n := |b| - 1;
      assert (a + b)[..|a + b| - 1] == a + b[..n];
      TotalConcat(a, b[..n]);
    }
  }

  lemma TotalOne(c: byte)
    ensures Total([c]) == c
  {
    assert [c][..0] == [];
  }

  lemma SumNext(s: seq<byte>, c: byte)
    ensures Sum(s + [c]) == (Sum(s) + c) % 256
  {
    hide Total;
    TotalConcat(s, [c]);
    TotalOne(c);
  }

  lemma SumNone()
    ensures Sum([]) == 0
  {
  }

  /** The message type counts for the checksum; no message type is a zero. */
  lemma SumHead(c: byte, buf: seq<byte>)
    ensures Sum((if c != 0 then [c] else []) + buf) == (c + Sum(buf)) % 256
  {
    if c == 0 {
      assert [] + buf == buf;
    } else {
      TotalConcat([c], buf);
      TotalOne(c);
      hide Total;
    }
  }

  function Footer(sum: byte): seq<byte> { [HASH, HexDigit(sum / 16), HexDigit(sum % 16)] }

  /** $ payload # checksum */
  function Frame(p: seq<byte>): seq<byte> { [DOLLAR] + p + Footer(Sum(p)) }

  function Repeat(s: seq<byte>, k: nat): seq<byte> { if k == 0 then [] else Repeat(s, k - 1) + s }

  lemma RepeatNone(s: seq<byte>)
    ensures Repeat(s, 0) == []
  {
  }

  lemma RepeatOnce(s: seq<byte>, k: nat)
    ensures Repeat(s, k + 1) == Repeat(s, k) + s
  {
  }

  // ----- receiving -----

  /** What getmsg makes of a stream: a payload, or it is still waiting for input. */
  datatype Reception = Got(payload: seq<byte>, replies: seq<byte>, rest: seq<byte>) | Waiting(replies: seq<byte>)

  /** Index of the first c, or the length. */
  function First(s: seq<byte>, c: byte): (k: nat)
    ensures k <= |s|
  {
    if s == [] || s[0] == c then 0 else 1 + First(s[1..], c)
  }

  /** Replies that were sent before. */
  function After(sent: seq<byte>, r: Reception): Reception {
    match r
    case Got(p, replies, rest) => Got(p, sent + replies, rest)
    case Waiting(replies) => Waiting(sent + replies)
  }

  lemma AfterAfter(a: seq<byte>, b: seq<byte>, r: Reception)
    ensures After(a, After(b, r)) == After(a + b, r) && After([], r) == r
  {
    assert a + (b + r.replies) == (a + b) + r.replies;
  }

  /** After the start character. */
  function Body(t: seq<byte>): Reception
    decreases |t|, 0
  {
    var j := First(t, HASH);
    if j + 2 >= |t| then Waiting([])
    else if Sum(t[..j]) == HexValue(t[j + 1]) * 16 + HexValue(t[j + 2]) then Got(t[..j], [PLUS], t[j + 3..])
    else After([MINUS], Receive(t[j + 3..]))
  }

  function Receive(s: seq<byte>): Reception
    decreases |s|, 1
  {
    var i := First(s, DOLLAR);
    if i == |s| then Waiting([]) else Body(s[i + 1..])
  }

  lemma {:induction false} FirstSkips(a: seq<byte>, c: byte, b: seq<byte>)
    requires c !in a
    ensures First(a + [c] + b, c) == |a|
  {
    var s := a + [c] + b;
    if a != [] {
      assert s[0] == a[0] && s[1..] == a[1..] + [c] + b;
      FirstSkips(a[1..], c, b);
    }
  }

  lemma {:induction false} FirstIs(s: seq<byte>, c: byte)
    ensures var k := First(s, c); c !in s[..k] && (k < |s| ==> s[k] == c)
  {
    if s != [] && s[0] != c {
      FirstIs(s[1..], c);
      var k := First(s, c);
      assert s[..k] == [s[0]] + s[1..][..k - 1];
    }
  }

  /** Noise before the start character is ignored. */
  lemma ReceiveSkips(noise: seq<byte>, t: seq<byte>)
    requires DOLLAR !in noise
    ensures Receive(noise + [DOLLAR] + t) == Body(t)
  {
    FirstSkips(noise, DOLLAR, t);
    assert (noise + [DOLLAR] + t)[|noise| + 1..] == t;
  }

  lemma BodyIs(p: seq<byte>, a: byte, b: byte, rest: seq<byte>)
    requires HASH !in p
    ensures Body(p + [HASH] + ([a, b] + rest)) ==
            if Sum(p) == HexValue(a) * 16 + HexValue(b) then Got(p, [PLUS], rest) else After([MINUS], Receive(rest))
  {
    hide Receive, Sum;
    var t := p + [HASH] + ([a, b] + rest);
    FirstSkips(p, HASH, [a, b] + rest);
    assert t[..|p|] == p && t[|p| + 1] == a && t[|p| + 2] == b && t[|p| + 3..] == rest;
  }

  /** The body of the packet that starts at i and ends at j. */
  lemma BodyAt(s: seq<byte>, i: nat, j: nat)
    requires i <= j <= |s| && First(s[i..], HASH) == j - i
    ensures Body(s[i..]) == if j + 2 >= |s| then Waiting([])
                            else if Sum(s[i..j]) == HexValue(s[j + 1]) * 16 + HexValue(s[j + 2])
                              then Got(s[i..j], [PLUS], s[j + 3..])
                            else After([MINUS], Receive(s[j + 3..]))
  {
    hide Receive, Sum, First;
    assert s[i..][..j - i] == s[i..j];
    if j + 2 < |s| {
      assert s[i..][j - i + 3..] == s[j + 3..];
    }
  }

  /** A framed payload is received as it was sent, after any noise. */
  lemma ReceiveFrame(noise: seq<byte>, p: seq<byte>, rest: seq<byte>)
    requires DOLLAR !in noise && HASH !in p
    ensures Receive(noise + Frame(p) + rest) == Got(p, [PLUS], rest)
  {
    hide Receive, Body, Sum;
    var sum := Sum(p);
    var a, b := HexDigit(sum / 16), HexDigit(sum % 16);
    assert noise + Frame(p) + rest == noise + [DOLLAR] + (p + [HASH] + ([a, b] + rest));
    ReceiveSkips(noise, p + [HASH] + ([a, b] + rest));
    BodyIs(p, a, b, rest);
  }

  /** A packet whose checksum is wrong is answered with '-', and reception starts over. */
  lemma ReceiveDamaged(noise: seq<byte>, q: seq<byte>, a: byte, b: byte, rest: seq<byte>)
    requires DOLLAR !in noise && HASH !in q && Sum(q) != HexValue(a) * 16 + HexValue(b)
    ensures Receive(noise + [DOLLAR] + (q + [HASH] + ([a, b] + rest))) == After([MINUS], Receive(rest))
  {
    hide Receive, Body, Sum;
    ReceiveSkips(noise, q + [HASH] + ([a, b] + rest));
    BodyIs(q, a, b, rest);
  }

  /** s[i..j] is a packet's payload with the right checksum. */
  ghost predicate Packet(s: seq<byte>, i: nat, j: nat) {
    && 0 < i <= j && j + 2 < |s| && s[i - 1] == DOLLAR && s[j] == HASH && HASH !in s[i..j]
    && Sum(s[i..j]) == HexValue(s[j + 1]) * 16 + HexValue(s[j + 2])
  }

  lemma PacketShift(s: seq<byte>, n: nat, i: nat, j: nat)
    requires n <= |s| && Packet(s[n..], i, j)
    ensures Packet(s, n + i, n + j) && s[n + i..n + j] == s[n..][i..j] && s[n..][j + 3..] == s[n + j + 3..]
  {
    hide Sum;
    assert s[n + i..n + j] == s[n..][i..j];
  }

  /** Reception case by case, on the stream itself. */
  lemma ReceiveCases(s: seq<byte>) returns (i: nat, j: nat)
    requires Receive(s).Got?
    ensures 0 < i <= j && j + 2 < |s| && s[i - 1] == DOLLAR && s[j] == HASH && HASH !in s[i..j]
    ensures if Sum(s[i..j]) == HexValue(s[j + 1]) * 16 + HexValue(s[j + 2])
            then Receive(s) == Got(s[i..j], [PLUS], s[j + 3..])
            else Receive(s) == After([MINUS], Receive(s[j + 3..]))
  {
    hide Sum, Receive;
    i := StartOf(s);
    j := BodyCases(s, i);
  }

  lemma StartOf(s: seq<byte>) returns (i: nat)
    requires Receive(s).Got?
    ensures 0 < i <= |s| && s[i - 1] == DOLLAR && Receive(s) == Body(s[i..])
  {
    hide Body;
    FirstIs(s, DOLLAR);
    i := First(s, DOLLAR) + 1;
  }

  lemma BodyCases(s: seq<byte>, i: nat) returns (j: nat)
    requires i <= |s| && Body(s[i..]).Got?
    ensures i <= j && j + 2 < |s| && s[j] == HASH && HASH !in s[i..j]
    ensures if Sum(s[i..j]) == HexValue(s[j + 1]) * 16 + HexValue(s[j + 2])
            then Body(s[i..]) == Got(s[i..j], [PLUS], s[j + 3..])
            else Body(s[i..]) == After([MINUS], Receive(s[j + 3..]))
  {
    hide Sum, Receive, Body;
    FirstIs(s[i..], HASH);
    j := i + First(s[i..], HASH);
    assert s[i..][..j - i] == s[i..j];
    BodyAt(s, i, j);
  }

  /** Whatever is accepted stood in the stream as a packet with the right checksum. */
  lemma {:induction false} ReceiveSound(s: seq<byte>) returns (i: nat, j: nat)
    requires Receive(s).Got?
    ensures Packet(s, i, j) && Receive(s).payload == s[i..j] && Receive(s).rest == s[j + 3..]
    decreases |s|
  {
    hide Receive, Sum;
    i, j := ReceiveCases(s);
    if Sum(s[i..j]) != HexValue(s[j + 1]) * 16 + HexValue(s[j + 2]) {
      hide Packet;
      var n := j + 3;
      i, j := ReceiveSound(s[n..]);
      PacketShift(s, n, i, j);
      i, j := n + i, n + j;
    }
  }

  // ----- registers -----

  const NUM_REGS: nat := 23

  /** A register as the machine stores it, most significant byte first. */
  function RegBytes(v: nat): (bs: seq<byte>)
    requires v < 0x1_0000_0000
    ensures |bs| == 4
  {
    [v / 0x100_0000, v / 0x1_0000 % 256, v / 256 % 256, v % 256]
  }

  function RegValue(bs: seq<byte>): (v: nat)
    requires |bs| == 4
    ensures v < 0x1_0000_0000
  {
    var a: int, b: int, c: int := bs[0], bs[1], bs[2];
    ((a * 256 + b) * 256 + c) * 256 + bs[3]
  }

  lemma RegRoundTrip(v: nat)
    requires v < 0x1_0000_0000
    ensures RegValue(RegBytes(v)) == v
  {
    var x, y := v / 256, v / 0x1_0000;
    assert y == x / 256 && v / 0x100_0000 == y / 256;
    assert v == x * 256 + v % 256 && x == y * 256 + x % 256 && y == y / 256 * 256 + y % 256;
  }

  ghost predicate RegsOk(regs: seq<nat>) { forall i {:trigger regs[i]} :: 0 <= i < |regs| ==> regs[i] < 0x1_0000_0000 }

  /** The bytes of registers 0..n, in order. */
  function FileBytes(regs: seq<nat>, n: nat): (bs: seq<byte>)
    requires n <= |regs| && RegsOk(regs)
    ensures |bs| == 4 * n
  {
    if n == 0 then [] else FileBytes(regs, n - 1) + RegBytes(regs[n - 1])
  }

  lemma {:induction false} FileBytesAt(regs: seq<nat>, n: nat, id: nat)
    requires n <= |regs| && RegsOk(regs) && id < n
    ensures FileBytes(regs, n)[4 * id..4 * id + 4] == RegBytes(regs[id])
    decreases n
  {
    hide RegBytes;
    var a, b := FileBytes(regs, n - 1), RegBytes(regs[n - 1]);
    if id < n - 1 {
      FileBytesAt(regs, n - 1, id);
      assert (a + b)[4 * id..4 * id + 4] == a[4 * id..4 * id + 4];
    } else {
      assert (a + b)[4 * id..4 * id + 4] == b;
    }
  }

  /** What the G command reads for register id from the text. */
  function RegText(t: seq<byte>, id: nat): nat
    requires 8 * id + 8 <= |t|
  {
    RegValue(Unhex(t[8 * id..8 * id + 8], 4))
  }

  /** Sending back what the g command reported leaves every register as it is. */
  lemma RegistersRoundTrip(regs: seq<nat>, tail: seq<byte>, id: nat)
    requires |regs| == 23 && RegsOk(regs) && id < NUM_REGS
    ensures RegText(Hex(FileBytes(regs, NUM_REGS)) + tail, id) == regs[id]
  {
    hide RegBytes, RegValue, Hex, Unhex, FileBytes;
    var bs := FileBytes(regs, NUM_REGS);
    FileBytesAt(regs, NUM_REGS, id);
    HexSlice(bs, 4 * id, 4, tail);
    UnhexHex(bs[4 * id..4 * id + 4], []);
    assert Hex(RegBytes(regs[id])) + [] == Hex(RegBytes(regs[id]));
    RegRoundTrip(regs[id]);
  }

  lemma HexSlice(bs: seq<byte>, i: nat, n: nat, tail: seq<byte>)
    requires i + n <= |bs|
    ensures (Hex(bs) + tail)[2 * i..2 * i + 2 * n] == Hex(bs[i..i + n])
  {
    hide Hex;
    assert bs == bs[..i] + (bs[i..i + n] + bs[i + n..]);
    HexConcat(bs[..i], bs[i..i + n] + bs[i + n..]);
    HexConcat(bs[i..i + n], bs[i + n..]);
  }

  // ----- the memory command -----

  /** Transmission number j, from one, of the reply to the m command: the checksum is never reset. */
  function Transmission(hex: seq<byte>, j: nat): seq<byte> { [DOLLAR] + hex + Footer(j * Total(hex) % 256) }

  function Transmissions(hex: seq<byte>, k: nat): seq<byte> {
    if k == 0 then [] else Transmissions(hex, k - 1) + Transmission(hex, k)
  }

  lemma FirstTransmission(hex: seq<byte>)
    ensures Transmission(hex, 1) == Frame(hex)
  {
  }

  /** A repeated reply is a proper packet exactly when the sums of the ones before it cancel out. */
  lemma RepeatedTransmission(hex: seq<byte>, j: nat)
    requires j >= 1
    ensures Transmission(hex, j) == Frame(hex) <==> (j - 1) * Total(hex) % 256 == 0
  {
    hide Total;
    var s, d := Total(hex), (j - 1) * Total(hex);
    assert j * s == d + s;
    Cancels(d, s);
    var a, b := (d + s) % 256, s % 256;
    if Transmission(hex, j) == Frame(hex) {
      assert Transmission(hex, j)[|hex| + 2] == HexDigit(a / 16) && Frame(hex)[|hex| + 2] == HexDigit(b / 16);
      assert Transmission(hex, j)[|hex| + 3] == HexDigit(a % 16) && Frame(hex)[|hex| + 3] == HexDigit(b % 16);
      assert a / 16 == HexValue(HexDigit(a / 16)) == HexValue(HexDigit(b / 16)) == b / 16;
      assert a % 16 == HexValue(HexDigit(a % 16)) == HexValue(HexDigit(b % 16)) == b % 16;
    }
  }

  lemma Cancels(d: nat, s: nat)
    ensures (d + s) % 256 == s % 256 <==> d % 256 == 0
  {
  }

  // ----- replies -----

  /** Replies are read one by one up to the first '+', at the end of which to stands; not ok means
      that there is none. */
  ghost predicate Replied(input: seq<byte>, from: nat, to: nat, ok: bool) {
    && from <= to <= |input|
    && (ok ==> from < to && input[to - 1] == PLUS)
    && (!ok ==> to == |input|)
    && forall k {:trigger input[k]} :: from <= k < (if ok then to - 1 else to) ==> input[k] != PLUS
  }

  /** The same in the loop: good says that the last reply was a '+'. */
  ghost predicate Replying(input: seq<byte>, from: nat, to: nat, ok: bool, good: bool) {
    && from <= to <= |input| && (good ==> ok && from < to && input[to - 1] == PLUS) && (!ok ==> to == |input|)
    && forall k {:trigger input[k]} :: from <= k < (if good then to - 1 else to) ==> input[k] != PLUS
  }

  // ----- the receive buffer -----

  const MAX_PAYLOAD: nat := 198        // GDB_RXBUFLEN, without room for the hash and the NUL

  /** No packet that getmsg has to read is too long for the buffer. */
  ghost predicate BodyFits(t: seq<byte>)
    decreases |t|, 0
  {
    var j := First(t, HASH);
    && j <= MAX_PAYLOAD
    && (j + 2 >= |t| || Sum(t[..j]) == HexValue(t[j + 1]) * 16 + HexValue(t[j + 2]) || StreamFits(t[j + 3..]))
  }

  ghost predicate StreamFits(s: seq<byte>)
    decreases |s|, 1
  {
    var i := First(s, DOLLAR);
    i == |s| || BodyFits(s[i + 1..])
  }

  /** What has been read of a body: the characters, and a NUL behind them. */
  ghost predicate Buffered(rxbuf: seq<byte>, text: seq<byte>) {
    |text| < |rxbuf| && rxbuf[..|text|] == text && (text != [] ==> rxbuf[|text|] == 0)
  }

  lemma FitsAt(s: seq<byte>, i: nat, j: nat)
    requires i <= j <= |s| && First(s[i..], HASH) == j - i && BodyFits(s[i..])
    ensures j - i <= MAX_PAYLOAD
    ensures j + 2 < |s| && Sum(s[i..j]) != HexValue(s[j + 1]) * 16 + HexValue(s[j + 2]) ==> StreamFits(s[j + 3..])
  {
    hide Sum, First, StreamFits;
    assert s[i..][..j - i] == s[i..j];
    if j + 2 < |s| {
      assert s[i..][j - i + 3..] == s[j + 3..];
    }
  }

  lemma FrameFits(noise: seq<byte>, p: seq<byte>, rest: seq<byte>)
    requires DOLLAR !in noise && HASH !in p && |p| <= MAX_PAYLOAD
    ensures StreamFits(noise + Frame(p) + rest)
  {
    hide Sum, BodyFits;
    var sum := Sum(p);
    var a, b := HexDigit(sum / 16), HexDigit(sum % 16);
    var t := p + [HASH] + ([a, b] + rest);
    var s := noise + [DOLLAR] + t;
    assert noise + Frame(p) + rest == s;
    FirstSkips(noise, DOLLAR, t);
    assert s[|noise| + 1..] == t;
    GoodBodyFits(p, a, b, rest);
  }

  lemma GoodBodyFits(p: seq<byte>, a: byte, b: byte, rest: seq<byte>)
    requires HASH !in p && |p| <= MAX_PAYLOAD && Sum(p) == HexValue(a) * 16 + HexValue(b)
    ensures BodyFits(p + [HASH] + ([a, b] + rest))
  {
    hide Sum, StreamFits;
    var t := p + [HASH] + ([a, b] + rest);
    FirstSkips(p, HASH, [a, b] + rest);
    assert t[..|p|] == p && t[|p| + 1] == a && t[|p| + 2] == b;
  }

  // ----- the program -----

  /** The serial line: what GDB sends, how far it is read, and what is sent back. */
  class Line {
    const input: seq<byte>
    var pos: nat
    var sent: seq<byte>

    constructor (input: seq<byte>)
      ensures this.input == input && pos == 0 && sent == []
    {
      this.input, pos, sent := input, 0, [];
    }

    method Putc(c: byte)
      modifies this`sent
      ensures sent == old(sent) + [c]
    {
      sent := sent + [c];
    }

    method PutFooter(sum: byte)
      modifies this`sent
      ensures sent == old(sent) + Footer(sum)
    {
      Putc(HASH);
      Putc(HexDigit(sum / 16));
      Putc(HexDigit(sum % 16));
      assert sent == old(sent) + Footer(sum);
    }

    /** Waits for one reply; false if the line goes silent. */
    method Answer() returns (ok: bool, good: bool)
      requires pos <= |input|
      modifies this`pos
      ensures pos <= |input| && ok == (old(pos) < |input|) && pos == (if ok then old(pos) + 1 else old(pos))
      ensures good == (ok && input[old(pos)] == PLUS)
    {
      ok, good := pos < |input|, false;
      if ok {
        good := input[pos] == PLUS;
        pos := pos + 1;
      }
    }

    /** putbuf */
    method PutBuf(buf: seq<byte>) returns (sum: byte)
      modifies this`sent
      ensures sent == old(sent) + buf && sum == Sum(buf)
    {
      hide Sum;
      SumNone();
      sum := 0;
      var i := 0;
      while i < |buf|
        modifies this`sent
        invariant 0 <= i <= |buf| && sent == old(sent) + buf[..i] && sum == Sum(buf[..i])
      {
        assert buf[..i + 1] == buf[..i] + [buf[i]];
        SumNext(buf[..i], buf[i]);
        sum := (sum + buf[i]) % 256;
        Putc(buf[i]);
        i := i + 1;
      }
      assert buf[..i] == buf;
    }

    /** One transmission of putmsg; c zero stands for no message type. */
    method PutOnce(c: byte, buf: seq<byte>)
      modifies this`sent
      ensures sent == old(sent) + Frame((if c != 0 then [c] else []) + buf)
    {
      hide Sum, Footer;
      ghost var head := if c != 0 then [c] else [];
      Putc(DOLLAR);
      if c != 0 {
        Putc(c);
      }
      assert sent == old(sent) + ([DOLLAR] + head);
      var s := PutBuf(buf);
      SumHead(c, buf);
      var sum := (c + s) % 256;
      PutFooter(sum);
      assert old(sent) + ([DOLLAR] + head) + buf + Footer(sum) == old(sent) + ([DOLLAR] + (head + buf) + Footer(sum));
    }

    /** putmsg: the packet is sent until the reply is '+'. */
    method PutMsg(c: byte, buf: seq<byte>) returns (ok: bool)
      requires pos <= |input|
      modifies this`sent, this`pos
      ensures Replied(input, old(pos), pos, ok)
      ensures ok ==> sent == old(sent) + Repeat(Frame((if c != 0 then [c] else []) + buf), pos - old(pos))
    {
      hide Frame, Repeat;
      ghost var f := Frame((if c != 0 then [c] else []) + buf);
      RepeatNone(f);
      var good := false;
      ok := true;
      while ok && !good
        modifies this`sent, this`pos
        invariant Replying(input, old(pos), pos, ok, good)
        invariant ok ==> sent == old(sent) + Repeat(f, pos - old(pos))
        decreases |input| - pos, if ok then 1 else 0
      {
        RepeatOnce(f, pos - old(pos));
        PutOnce(c, buf);
        ok, good := Answer();
      }
    }

    /**
      getmsg: the first packet with a right checksum; a wrong one is answered with '-'.  The buffer
      then holds the payload, the '#' and a NUL.
     */
    method GetMsg(rxbuf: array<byte>) returns (ok: bool, ghost payload: seq<byte>)
      requires pos <= |input| && rxbuf.Length == 200 && StreamFits(input[pos..])
      modifies this`sent, this`pos, rxbuf
      ensures pos <= |input|
      ensures var r := Receive(input[old(pos)..]);
              ok == r.Got? && sent == old(sent) + r.replies && (ok ==> payload == r.payload && input[pos..] == r.rest)
      ensures ok ==> Buffered(rxbuf[..], payload + [HASH])
    {
      hide Receive, Sum, StreamFits, BodyFits;
      ghost var whole := Receive(input[pos..]);
      ghost var replies: seq<byte> := [];
      payload := [];
      AfterAfter([], [], whole);
      while true
        modifies this`sent, this`pos, rxbuf
        invariant old(pos) <= pos <= |input| && sent == old(sent) + replies && StreamFits(input[pos..])
        invariant whole == After(replies, Receive(input[pos..]))
        decreases |input| - pos
      {
        var more := SkipToDollar();
        if !more {
          return false, payload;
        }
        ghost var p0 := pos;
        var sum, full;
        payload, sum, full := ReadBody(rxbuf);
        if !full {
          return false, payload;
        }
        var rx := HexValue(input[pos]) * 16 + HexValue(input[pos + 1]);
        FitsAt(input, p0, pos - 1);
        pos := pos + 2;
        if sum == rx {
          Putc(PLUS);
          return true, payload;
        }
        Putc(MINUS);
        AfterAfter(replies, [MINUS], Receive(input[pos..]));
        replies := replies + [MINUS];
      }
    }

    /** Waits for the start character. */
    method SkipToDollar() returns (more: bool)
      requires pos <= |input|
      modifies this`pos
      ensures old(pos) <= pos <= |input| &&
              (more ==> pos > old(pos) && Receive(input[old(pos)..]) == Body(input[pos..]))
      ensures !more ==> Receive(input[old(pos)..]) == Waiting([])
      ensures more && StreamFits(input[old(pos)..]) ==> BodyFits(input[pos..])
    {
      hide Body, BodyFits;
      ghost var p0 := pos;
      while pos < |input|
        modifies this`pos
        invariant p0 <= pos <= |input| && First(input[p0..], DOLLAR) == pos - p0 + First(input[pos..], DOLLAR)
      {
        var c := input[pos];
        assert input[pos..][1..] == input[pos + 1..];
        pos := pos + 1;
        if c == DOLLAR {
          assert input[p0..][pos - p0..] == input[pos..];
          return true;
        }
      }
      more := false;
    }

    /** One character of a body goes into the buffer, and a NUL behind it. */
    method StoreChar(rxbuf: array<byte>, n: nat, c: byte, ghost text: seq<byte>)
      requires n == |text| && n + 1 < rxbuf.Length && Buffered(rxbuf[..], text)
      modifies rxbuf
      ensures Buffered(rxbuf[..], text + [c])
    {
      ghost var was := rxbuf[..];
      rxbuf[n] := c;
      rxbuf[n + 1] := 0;
      BufferedNext(was, rxbuf[..], text, c);
    }

    /** Reads up to '#'; full says that two more characters are there. */
    method ReadBody(rxbuf: array<byte>) returns (ghost buf: seq<byte>, sum: byte, full: bool)
      requires pos <= |input| && rxbuf.Length == 200 && BodyFits(input[pos..])
      modifies this`pos, rxbuf
      ensures old(pos) <= pos <= |input|
      ensures full ==> old(pos) < pos && pos + 2 <= |input| && buf == input[old(pos)..pos - 1] && sum == Sum(buf)
      ensures full ==> First(input[old(pos)..], HASH) == pos - 1 - old(pos) && Buffered(rxbuf[..], buf + [HASH])
      ensures full ==> Body(input[old(pos)..]) ==
                       (if sum == HexValue(input[pos]) * 16 + HexValue(input[pos + 1])
                        then Got(buf, [PLUS], input[pos + 2..])
                        else After([MINUS], Receive(input[pos + 2..])))
      ensures !full ==> Body(input[old(pos)..]) == Waiting([])
    {
      hide Receive, Sum, Body, BodyFits, First, Buffered;
      ghost var p0, t := pos, input[pos..];
      NothingBuffered(rxbuf[..]);
      FitsAt(input, p0, p0 + First(t, HASH));
      SumNone();
      var n := 0;
      buf, sum := [], 0;
      while pos < |input|
        modifies this`pos, rxbuf
        invariant p0 <= pos <= |input| && FirstFrom(input, p0, pos, HASH) && First(t, HASH) <= MAX_PAYLOAD
        invariant n == pos - p0 && buf == input[p0..pos] && sum == Sum(buf) && Buffered(rxbuf[..], buf)
      {
        var c := input[pos];
        FirstStep(input, p0, pos, HASH);
        pos := pos + 1;
        StoreChar(rxbuf, n, c, buf);
        n := n + 1;
        if c == HASH {
          full := pos + 2 <= |input|;
          BodyAt(input, p0, pos - 1);
          return;
        }
        SumNext(buf, c);
        buf, sum := buf + [c], (sum + c) % 256;
      }
      FirstEnds(input, p0, HASH);
      BodyAt(input, p0, pos);
      full := false;
    }
  }

  /** No c stands in s[i..j], seen from i. */
  ghost predicate FirstFrom(s: seq<byte>, i: nat, j: nat, c: byte) {
    i <= j <= |s| && First(s[i..], c) == j - i + First(s[j..], c)
  }

  lemma FirstStep(s: seq<byte>, i: nat, j: nat, c: byte)
    requires FirstFrom(s, i, j, c) && j < |s|
    ensures j - i <= First(s[i..], c)
    ensures if s[j] == c then First(s[i..], c) == j - i else FirstFrom(s, i, j + 1, c)
  {
    assert s[j..][1..] == s[j + 1..];
  }

  lemma FirstEnds(s: seq<byte>, i: nat, c: byte)
    requires FirstFrom(s, i, |s|, c)
    ensures First(s[i..], c) == |s| - i
  {
    assert s[|s|..] == [];
  }

  lemma NothingBuffered(rxbuf: seq<byte>)
    requires rxbuf != []
    ensures Buffered(rxbuf, [])
  {
  }

  lemma BufferedNext(was: seq<byte>, rxbuf: seq<byte>, text: seq<byte>, c: byte)
    requires Buffered(was, text) && |text| + 1 < |was| && rxbuf == was[|text| := c][|text| + 1 := 0]
    ensures Buffered(rxbuf, text + [c])
  {
    var n := |text|;
    assert rxbuf[..n] == was[..n];
    assert rxbuf[..n + 1] == rxbuf[..n] + [rxbuf[n]];
  }
}

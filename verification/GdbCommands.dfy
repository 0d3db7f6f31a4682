/**
  The commands g, G, m and M of testrom/gdb.c, from the packet down to registers and memory.
 */
module GdbCommands {
  import opened Arithmetic
  import opened GdbCodec
  import opened GdbPacket

  // ----- registers -----

  /** One transmission of read_registers. */
  method SendRegisters(line: Line, regs: array<nat>)
    requires regs.Length == 23 && RegsOk(regs[..])
    modifies line`sent
    ensures line.sent == old(line.sent) + Frame(Hex(FileBytes(regs[..], NUM_REGS)))
  {
    hide Hex, FileBytes, Sum, Footer, RegBytes, RegsOk;
    line.Putc(DOLLAR);
    var sum: byte, id := 0, 0;
    FileNone(regs[..]);
    SumNone();
    while id < NUM_REGS
      modifies line`sent
      invariant 0 <= id <= NUM_REGS
      invariant line.sent == old(line.sent) + ([DOLLAR] + Hex(FileBytes(regs[..], id)))
      invariant sum == Sum(Hex(FileBytes(regs[..], id)))
    {
      RegOk(regs[..], id);
      var digits := Digits(RegBytes(regs[id]));
      ghost var text := Hex(FileBytes(regs[..], id));
      FileNext(regs[..], id);
      SumConcat(text, digits);
      Regroup(old(line.sent), [DOLLAR] + text, digits);
      Regroup([DOLLAR], text, digits);
      var s := line.PutBuf(digits);
      sum := (sum + s) % 256;
      id := id + 1;
    }
    line.PutFooter(sum);
  }

  lemma RegOk(regs: seq<nat>, id: nat)
    requires RegsOk(regs) && id < |regs|
    ensures regs[id] < 0x1_0000_0000
  {
  }

  lemma FileNone(regs: seq<nat>)
    requires RegsOk(regs)
    ensures Hex(FileBytes(regs, 0)) == []
  {
  }

  lemma FileNext(regs: seq<nat>, id: nat)
    requires RegsOk(regs) && id < |regs|
    ensures Hex(FileBytes(regs, id + 1)) == Hex(FileBytes(regs, id)) + Hex(RegBytes(regs[id]))
  {
    hide Hex;
    HexConcat(FileBytes(regs, id), RegBytes(regs[id]));
  }

  lemma SumConcat(a: seq<byte>, b: seq<byte>)
    ensures Sum(a + b) == (Sum(a) + Sum(b)) % 256
  {
    hide Total;
    TotalConcat(a, b);
    SumsAdd(Total(a), Total(b));
  }

  /** read_registers: the same packet until the reply is '+'. */
  method ReadRegisters(line: Line, regs: array<nat>) returns (ok: bool)
    requires regs.Length == 23 && RegsOk(regs[..]) && line.pos <= |line.input|
    modifies line
    ensures Replied(line.input, old(line.pos), line.pos, ok)
    ensures ok ==>
              line.sent == old(line.sent) + Repeat(Frame(Hex(FileBytes(regs[..], NUM_REGS))), line.pos - old(line.pos))
  {
    hide Hex, FileBytes, Frame, RegsOk, Repeat;
    ghost var f := Frame(Hex(FileBytes(regs[..], NUM_REGS)));
    RepeatNone(f);
    var good := false;
    ok := true;
    while ok && !good
      modifies line
      invariant Replying(line.input, old(line.pos), line.pos, ok, good)
      invariant ok ==> line.sent == old(line.sent) + Repeat(f, line.pos - old(line.pos))
      decreases |line.input| - line.pos, if ok then 1 else 0
    {
      RepeatOnce(f, line.pos - old(line.pos));
      Regroup(old(line.sent), Repeat(f, line.pos - old(line.pos)), f);
      SendRegisters(line, regs);
      ok, good := line.Answer();
    }
  }

  /** How many registers the G command writes: up to a '#' at a register boundary, at most all. */
  function RegCount(hargs: seq<byte>, k: nat): (n: nat)
    requires k <= NUM_REGS && 8 * NUM_REGS < |hargs|
    ensures k <= n <= NUM_REGS && (n < NUM_REGS ==> hargs[8 * n] == HASH)
    ensures forall j :: k <= j < n ==> hargs[8 * j] != HASH
    decreases NUM_REGS - k
  {
    if k == NUM_REGS || hargs[8 * k] == HASH then k else RegCount(hargs, k + 1)
  }

  /**
    write_registers without its reply, on whatever the receive buffer holds: a '#' counts only where
    a register begins, digits of a register beyond a '#' are read like any other characters, and
    registers without text keep their value.
   */
  method WriteRegisters(hargs: seq<byte>, regs: array<nat>)
    requires regs.Length == 23 && 8 * NUM_REGS < |hargs|
    modifies regs
    ensures forall id :: 0 <= id < NUM_REGS ==>
            regs[id] == if id < RegCount(hargs, 0) then RegText(hargs, id) else old(regs[id])
  {
    hide RegValue, Unhex, RegCount;
    ghost var n := RegCount(hargs, 0);
    var id, h := 0, 0;
    while hargs[h] != HASH
      invariant 0 <= id <= n && h == 8 * id
      invariant forall k :: 0 <= k < NUM_REGS ==> regs[k] == if k < id then RegText(hargs, k) else old(regs[k])
      decreases n - id
    {
      if id >= NUM_REGS {
        break;
      }
      var val := Undigits(hargs, h, 4);
      UnhexSlice(hargs, id, val);
      h := h + 8;
      regs[id] := RegValue(val);
      id := id + 1;
    }
    assert id == n;
  }

  lemma UnhexSlice(h: seq<byte>, id: nat, val: seq<byte>)
    requires 8 * id + 8 <= |h| && |val| == 4 && forall i :: 0 <= i < 4 ==> val[i] == Pair(h, 8 * id / 2 + i)
    ensures val == Unhex(h[8 * id..8 * id + 8], 4)
  {
    var t := h[8 * id..8 * id + 8];
    forall i | 0 <= i < 4
      ensures val[i] == Pair(t, i)
    {
      assert t[2 * i] == h[8 * id + 2 * i] && t[2 * i + 1] == h[8 * id + 2 * i + 1];
    }
  }

  /** The text of a packet sent again and again: what stands behind the first '$'. */
  lemma {:induction false} FramedText(p: seq<byte>, k: nat)
    requires k >= 1
    ensures |Repeat(Frame(p), k)| >= 1 + |p| && Repeat(Frame(p), k)[1..1 + |p|] == p
  {
    hide Sum;
    if k == 1 {
      RepeatNone(Frame(p));
      assert Repeat(Frame(p), 1) == [] + Frame(p);
    } else {
      FramedText(p, k - 1);
      var t := Repeat(Frame(p), k - 1);
      assert (t + Frame(p))[1..1 + |p|] == t[1..1 + |p|];
    }
  }

  /** g, then G with the text of the reply: no register changes. */
  method ReadThenWriteRegisters(line: Line, regs: array<nat>) returns (ok: bool)
    requires regs.Length == 23 && RegsOk(regs[..]) && line.pos <= |line.input|
    modifies line, regs
    ensures regs[..] == old(regs[..])
  {
    hide Hex, FileBytes, RegText, RegsOk, Frame, Repeat;
    var at := |line.sent| + 1;
    ok := ReadRegisters(line, regs);
    if !ok {
      return;
    }
    ghost var before, hex := regs[..], Hex(FileBytes(regs[..], NUM_REGS));
    FramedText(hex, line.pos - old(line.pos));
    var text := line.sent[at..at + 8 * NUM_REGS];
    assert text == hex;
    NoHash(FileBytes(before, NUM_REGS));
    WriteRegisters(text + [HASH], regs);
    forall id | 0 <= id < NUM_REGS
      ensures regs[id] == before[id]
    {
      RegistersRoundTrip(before, [HASH], id);
    }
  }

  lemma NoHash(bs: seq<byte>)
    ensures forall i :: 0 <= i < |Hex(bs)| ==> Hex(bs)[i] != HASH
  {
    HexIsDigits(bs);
  }

  // ----- arguments -----

  const COMMA: byte := 0x2C
  const COLON: byte := 0x3A

  const LONG: nat := 0x1_0000_0000

  /** The number that hex digits stand for. */
  function HexNumber(ds: seq<byte>): nat {
    if ds == [] then 0 else HexNumber(ds[..|ds| - 1]) * 16 + HexValue(ds[|ds| - 1])
  }

  /** The value of a long with the given bits. */
  function Signed(v: nat): int { if v < LONG / 2 then v else v - LONG }

  /** hargs_parse_long, from `start` on: the value modulo 2^32, and where to go on. */
  method ParseLong(hargs: seq<byte>, start: nat, delim: byte) returns (l: nat, next: nat)
    requires start <= |hargs| && start + First(hargs[start..], delim) < |hargs|
    ensures var n := First(hargs[start..], delim);
            l == HexNumber(hargs[start..start + n]) % LONG && next == start + n + 1
  {
    hide First, HexNumber;
    l, next := 0, start;
    assert hargs[start..start] == [];
    NoNumber();
    assert FirstFrom(hargs, start, start, delim);
    FirstIs(hargs[start..], delim);
    while hargs[next] != delim
      invariant FirstFrom(hargs, start, next, delim) && next <= start + First(hargs[start..], delim)
      invariant l == HexNumber(hargs[start..next]) % LONG
      decreases |hargs| - next
    {
      FirstStep(hargs, start, next, delim);
      assert hargs[start..next + 1] == hargs[start..next] + [hargs[next]];
      NextDigit(hargs[start..next], hargs[next]);
      l := (l * 16 + HexValue(hargs[next])) % LONG;
      next := next + 1;
      NotBeyond(hargs, start, next, delim);
    }
    FirstStep(hargs, start, next, delim);
    next := next + 1;
  }

  lemma NoNumber()
    ensures HexNumber([]) == 0
  {
  }

  lemma NotBeyond(s: seq<byte>, i: nat, j: nat, c: byte)
    requires FirstFrom(s, i, j, c)
    ensures j <= i + First(s[i..], c)
  {
  }

  lemma NextDigit(ds: seq<byte>, h: byte)
    ensures HexNumber(ds + [h]) == HexNumber(ds) * 16 + HexValue(h)
    ensures (HexNumber(ds) % LONG * 16 + HexValue(h)) % LONG == HexNumber(ds + [h]) % LONG
  {
    assert (ds + [h])[..|ds|] == ds;
    var x, v := HexNumber(ds), HexValue(h);
    hide HexNumber;
    var q, r := x / LONG, x % LONG;
    assert x * 16 + v == (r * 16 + v) + (16 * q) * LONG;
    DropMultiple(r * 16 + v, 16 * q, LONG);
  }

  /** The text of a number in hex digits, as GDB sends it. */
  function LongText(n: nat): (ds: seq<byte>)
    ensures ds != [] && forall i :: 0 <= i < |ds| ==> 48 <= ds[i] <= 57 || 97 <= ds[i] <= 102
  {
    if n < 16 then [HexDigit(n)] else LongText(n / 16) + [HexDigit(n % 16)]
  }

  lemma {:induction false} LongTextValue(n: nat)
    ensures HexNumber(LongText(n)) == n
  {
    if n < 16 {
      assert [HexDigit(n)] == [] + [HexDigit(n)];
      NextDigit([], HexDigit(n));
      NoNumber();
    } else {
      LongTextValue(n / 16);
      NextDigit(LongText(n / 16), HexDigit(n % 16));
    }
  }

  /** The arguments of a memory command: address, length, and the text behind the delimiter. */
  datatype Args = Args(addr: nat, len: int, data: nat)

  ghost predicate HasArgs(h: seq<byte>, delim: byte) {
    var i := First(h, COMMA); i < |h| && i + 1 + First(h[i + 1..], delim) < |h|
  }

  ghost function ArgsOf(h: seq<byte>, delim: byte): Args
    requires HasArgs(h, delim)
  {
    var i := First(h, COMMA);
    var j := i + 1 + First(h[i + 1..], delim);
    Args(HexNumber(h[..i]) % LONG, Signed(HexNumber(h[i + 1..j]) % LONG), j + 1)
  }

  method ParseArgs(hargs: seq<byte>, delim: byte) returns (a: Args)
    requires HasArgs(hargs, delim)
    ensures a == ArgsOf(hargs, delim) && a.data <= |hargs|
  {
    hide First, HexNumber;
    assert hargs[0..] == hargs;
    var addr, next := ParseLong(hargs, 0, COMMA);
    assert hargs[0..next - 1] == hargs[..next - 1];
    var len, data := ParseLong(hargs, next, delim);
    a := Args(addr, Signed(len), data);
  }

  /** The arguments as GDB writes them. */
  function ArgText(addr: nat, len: nat): seq<byte> { LongText(addr) + [COMMA] + LongText(len) }

  lemma ArgTextIs(addr: nat, len: nat, delim: byte, rest: seq<byte>)
    requires addr < LONG && len < LONG / 2 && (delim == COLON || delim == HASH)
    ensures var h := ArgText(addr, len) + [delim] + rest;
            HasArgs(h, delim) && ArgsOf(h, delim) == Args(addr, len, |ArgText(addr, len)| + 1)
  {
    hide First, HexNumber, LongText;
    var a, l := LongText(addr), LongText(len);
    var h := a + [COMMA] + l + [delim] + rest;
    var t := l + [delim] + rest;
    assert h == a + [COMMA] + t;
    FirstSkips(a, COMMA, t);
    FirstSkips(l, delim, rest);
    var i := |a|;
    assert h[i + 1..] == t && h[..i] == a && h[i + 1..i + 1 + |l|] == l;
    LongTextValue(addr);
    LongTextValue(len);
  }

  // ----- memory -----

  /** How many bytes the m command sends: a negative length lets one piece of four through. */
  function SentBytes(len: int): nat { if len < 0 then 4 else len }

  /** One transmission of read_memory, in pieces of at most four bytes; sum runs on. */
  method SendMemory(line: Line, target: Target, addr: nat, len: int, sum: byte) returns (sum': byte)
    modifies line`sent, target`log
    ensures var hex := Hex(Bytes(target.mem, addr, SentBytes(len)));
            sum' == (sum + Sum(hex)) % 256 && line.sent == old(line.sent) + ([DOLLAR] + hex + Footer(sum'))
  {
    hide Hex, Bytes, Sum, Footer, Accesses;
    line.Putc(DOLLAR);
    var a, left := addr, len;
    sum' := sum;
    target.HexEmpty(target.mem, addr);
    SumNone();
    while left != 0
      modifies line`sent, target`log
      invariant addr <= a && (if left < 0 then left == len && a == addr else a + left == addr + SentBytes(len))
      invariant line.sent == old(line.sent) + ([DOLLAR] + Hex(Bytes(target.mem, addr, a - addr)))
      invariant sum' == (sum + Sum(Hex(Bytes(target.mem, addr, a - addr)))) % 256
      decreases if left < 0 then 1 else 0, left
    {
      // the length is compared as unsigned here
      var n := if left < 0 || left > 4 then 4 else left;
      var tx := target.MemToHexbuf(a, n);
      ghost var text := Hex(Bytes(target.mem, addr, a - addr));
      BytesConcat(target.mem, addr, a - addr, n);
      HexConcat(Bytes(target.mem, addr, a - addr), Bytes(target.mem, a, n));
      Piece(old(line.sent), text, tx, sum);
      var s := line.PutBuf(tx);
      sum' := (sum' + s) % 256;
      a := a + |tx| / 2;
      // and as signed here
      left := left - if |tx| / 2 > left then left else |tx| / 2;
    }
    line.PutFooter(sum');
  }

  lemma Piece(sent: seq<byte>, text: seq<byte>, tx: seq<byte>, sum: byte)
    ensures sent + ([DOLLAR] + text) + tx == sent + ([DOLLAR] + (text + tx))
    ensures ((sum + Sum(text)) % 256 + Sum(tx)) % 256 == (sum + Sum(text + tx)) % 256
  {
    SumConcat(text, tx);
    hide Sum;
  }

  /**
    read_memory: the first transmission is a proper packet with the bytes of memory; the
    checksum of each later one also counts those before it.
   */
  method ReadMemory(line: Line, target: Target, hargs: seq<byte>) returns (ok: bool)
    requires line.pos <= |line.input| && HasArgs(hargs, HASH)
    modifies line, target`log
    ensures Replied(line.input, old(line.pos), line.pos, ok)
    ensures var a := ArgsOf(hargs, HASH);
            ok ==> line.sent == old(line.sent) + Transmissions(Hex(Bytes(target.mem, a.addr, SentBytes(a.len))),
                                                               line.pos - old(line.pos))
  {
    hide Hex, Bytes, Transmissions, Total, Footer, Accesses, HasArgs, ArgsOf;
    var a := ParseArgs(hargs, HASH);
    ghost var hex := Hex(Bytes(target.mem, a.addr, SentBytes(a.len)));
    TransmissionsNone(hex);
    var sum: byte, good := 0, false;
    ok := true;
    while ok && !good
      modifies line, target`log
      invariant Replying(line.input, old(line.pos), line.pos, ok, good)
      invariant ok ==> line.sent == old(line.sent) + Transmissions(hex, line.pos - old(line.pos))
      invariant ok ==> sum == (line.pos - old(line.pos)) * Total(hex) % 256
      decreases |line.input| - line.pos, if ok then 1 else 0
    {
      ghost var k := line.pos - old(line.pos);
      NextTransmission(hex, k);
      Regroup(old(line.sent), Transmissions(hex, k), Transmission(hex, k + 1));
      sum := SendMemory(line, target, a.addr, a.len, sum);
      ok, good := line.Answer();
    }
  }

  lemma TransmissionsNone(hex: seq<byte>)
    ensures Transmissions(hex, 0) == []
  {
  }

  lemma NextTransmission(hex: seq<byte>, k: nat)
    ensures Transmissions(hex, k + 1) == Transmissions(hex, k) + Transmission(hex, k + 1)
    ensures (k * Total(hex) % 256 + Sum(hex)) % 256 == (k + 1) * Total(hex) % 256
  {
    hide Total;
    var s := Total(hex);
    assert (k + 1) * s == k * s + s;
    SumsAdd(k * s, s);
  }

  lemma SumsAdd(a: nat, b: nat)
    ensures (a % 256 + b % 256) % 256 == (a + b) % 256
  {
    var r, q := a % 256 + b % 256, a / 256 + b / 256;
    assert a + b == r + q * 256;
    DropMultiple(r, q, 256);
  }

  const OK: seq<byte> := [0x4F, 0x4B]

  /** write_memory: the digits behind the arguments, of which the buffer must hold enough. */
  method WriteMemory(line: Line, target: Target, hargs: seq<byte>) returns (ok: bool)
    requires line.pos <= |line.input| && HasArgs(hargs, COLON)
    requires var a := ArgsOf(hargs, COLON); a.data + 2 * a.len <= |hargs|
    modifies line, target
    ensures Replied(line.input, old(line.pos), line.pos, ok)
    ensures ok ==> line.sent == old(line.sent) + Repeat(Frame(OK), line.pos - old(line.pos))
    ensures var a := ArgsOf(hargs, COLON);
            a.data <= |hargs| && Written(old(target.mem), target.mem, a.addr,
                                         Unhex(hargs[a.data..], if a.len > 0 then a.len else 0))
  {
    hide HasArgs, ArgsOf, Unhex, Written, Accesses, Frame, Repeat;
    var a := ParseArgs(hargs, COLON);
    var end := target.HexbufToMem(hargs[a.data..], a.addr, a.len);
    assert [] + OK == OK;
    ok := line.PutMsg(0, OK);
  }

  /** write_xbin_memory */
  method WriteXbinMemory(line: Line, target: Target, hargs: seq<byte>) returns (ok: bool)
    requires line.pos <= |line.input| && HasArgs(hargs, COLON)
    requires var a := ArgsOf(hargs, COLON); a.data <= |hargs| && (a.len > 0 ==> XFits(hargs[a.data..], a.len))
    modifies line, target
    ensures Replied(line.input, old(line.pos), line.pos, ok)
    ensures ok ==> line.sent == old(line.sent) + Repeat(Frame(OK), line.pos - old(line.pos))
    ensures var a := ArgsOf(hargs, COLON);
            Written(old(target.mem), target.mem, a.addr, XBytes(hargs[a.data..], if a.len > 0 then a.len else 0))
  {
    hide HasArgs, ArgsOf, XBytes, XFits, Written, Accesses, Frame, Repeat;
    var a := ParseArgs(hargs, COLON);
    var end := target.XmemToMem(hargs[a.data..], a.addr, a.len);
    assert [] + OK == OK;
    ok := line.PutMsg(0, OK);
  }

  /** The reply's text: what stands behind the first '$'. */
  lemma {:induction false} FirstText(hex: seq<byte>, k: nat)
    requires k >= 1
    ensures |Transmissions(hex, k)| >= 1 + |hex| && Transmissions(hex, k)[1..1 + |hex|] == hex
  {
    hide Total;
    if k == 1 {
      TransmissionsNone(hex);
      assert Transmissions(hex, 1) == [] + Transmission(hex, 1);
    } else {
      FirstText(hex, k - 1);
      var t := Transmissions(hex, k - 1);
      assert (t + Transmission(hex, k))[1..1 + |hex|] == t[1..1 + |hex|];
    }
  }

  /** m, then M with the text of the reply, for every address and length: memory is as it was. */
  method ReadThenWriteMemory(line: Line, target: Target, addr: nat, len: nat) returns (ok: bool)
    requires line.pos <= |line.input| && addr < LONG && len < LONG / 2
    modifies line, target
    ensures forall x: nat {:trigger At(target.mem, x)} :: At(target.mem, x) == At(old(target.mem), x)
  {
    hide Hex, Bytes, Unhex, Written, HasArgs, ArgsOf, ArgText, Transmissions;
    var args, at := ArgText(addr, len), |line.sent| + 1;
    ArgTextIs(addr, len, HASH, []);
    assert args + [HASH] + [] == args + [HASH];
    ok := ReadMemory(line, target, args + [HASH]);
    if !ok {
      return;
    }
    ghost var m, hex := target.mem, Hex(Bytes(target.mem, addr, len));
    FirstText(hex, line.pos - old(line.pos));
    var text := line.sent[at..at + 2 * len];
    assert text == hex;
    ArgTextIs(addr, len, COLON, text + [HASH]);
    var h := args + [COLON] + (text + [HASH]);
    assert h[|args| + 1..] == text + [HASH];
    UnhexHex(Bytes(m, addr, len), [HASH]);
    ok := WriteMemory(line, target, h);
    WriteBack(m, target.mem, addr, len);
  }

  const XCMD: byte := 0x58

  /** The payload of an X packet. */
  function XPayload(addr: nat, bs: seq<byte>, extra: set<byte>): seq<byte> {
    [XCMD] + ArgText(addr, |bs|) + [COLON] + Escape(bs, extra)
  }

  lemma XPayloadNoHash(addr: nat, bs: seq<byte>, extra: set<byte>)
    requires 0x03 !in extra && 0x04 !in extra
    ensures HASH !in XPayload(addr, bs, extra)
  {
    hide Escape, LongText;
    EscapeHidesFraming(bs, extra);
  }

  /** What the buffer holds of an X packet, behind the command letter. */
  lemma XArguments(buf: seq<byte>, addr: nat, bs: seq<byte>, extra: set<byte>)
    requires addr < LONG && |bs| < LONG / 2 && Buffered(buf, XPayload(addr, bs, extra) + [HASH])
    ensures var h := buf[1..]; var args := ArgText(addr, |bs|);
            && HasArgs(h, COLON) && ArgsOf(h, COLON) == Args(addr, |bs|, |args| + 1)
            && |args| + 1 <= |h| && XFits(h[|args| + 1..], |bs|) && XBytes(h[|args| + 1..], |bs|) == bs
  {
    hide Escape, ArgText, XBytes, XLength, HasArgs, ArgsOf;
    var args, x, p := ArgText(addr, |bs|), Escape(bs, extra), XPayload(addr, bs, extra);
    var tail := [HASH] + buf[|p| + 1..];
    assert buf == buf[..|p| + 1] + buf[|p| + 1..];
    assert buf[1..] == args + [COLON] + (x + tail);
    ArgTextIs(addr, |bs|, COLON, x + tail);
    assert buf[1..][|args| + 1..] == x + tail;
    UnescapeEscape(bs, extra, tail);
  }

  /**
    The whole X command: after any noise GDB sends bs, escaped as it likes but without the two bytes
    that flip to framing characters; the packet is received whole, and exactly those bytes are stored.
   */
  method ReceiveEscaped(line: Line, target: Target, rxbuf: array<byte>, addr: nat, bs: seq<byte>, extra: set<byte>,
                        ghost noise: seq<byte>, ghost rest: seq<byte>) returns (ok: bool)
    requires line.pos <= |line.input| && rxbuf.Length == 200 && addr < LONG && |bs| < LONG / 2
    requires 0x03 !in extra && 0x04 !in extra && DOLLAR !in noise && |XPayload(addr, bs, extra)| <= 198
    requires line.input[line.pos..] == noise + Frame(XPayload(addr, bs, extra)) + rest
    modifies line, target, rxbuf
    ensures Written(old(target.mem), target.mem, addr, bs)
  {
    hide Frame, XPayload, Receive, Written, HasArgs, ArgsOf, XBytes, XFits, StreamFits, Repeat, Buffered, ArgText;
    ghost var p := XPayload(addr, bs, extra);
    XPayloadNoHash(addr, bs, extra);
    FrameFits(noise, p, rest);
    ReceiveFrame(noise, p, rest);
    var got;
    ghost var payload;
    got, payload := line.GetMsg(rxbuf);
    XArguments(rxbuf[..], addr, bs, extra);
    assert rxbuf[..][1..] == rxbuf[1..];
    ok := WriteXbinMemory(line, target, rxbuf[1..]);
  }
}

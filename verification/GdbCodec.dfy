/**
  The hex and escaped-binary codecs of testrom/gdb.c, which move memory in the largest aligned
  units they can.  Characters are bytes.  A load or store of two or four bytes copies them in the
  machine's order both ways, so a unit is its sequence of bytes.
 */
module GdbCodec {

  type byte = x: int | 0 <= x < 256

  // ----- hex digits -----

  /** lnibble_to_hex */
  function HexDigit(n: nat): (h: byte)
    requires n < 16
    ensures HexValue(h) == n
    ensures 48 <= h <= 57 || 97 <= h <= 102
  {
    if n < 10 then 48 + n else 87 + n
  }

  /** hex_to_int; other characters count as zero. */
  function HexValue(h: byte): (n: nat)
    ensures n < 16
  {
    if 97 <= h <= 102 then h - 87 else if 48 <= h <= 57 then h - 48 else if 65 <= h <= 70 then h - 55 else 0
  }

  /** Two digits a byte, the high one first. */
  function Hex(bs: seq<byte>): (h: seq<byte>)
    ensures |h| == 2 * |bs|
  {
    seq(2 * |bs|, i requires 0 <= i < 2 * |bs| => HexDigit(if i % 2 == 0 then bs[i / 2] / 16 else bs[i / 2] % 16))
  }

  /** The byte that two digits stand for. */
  function Pair(h: seq<byte>, i: nat): byte
    requires 2 * i + 1 < |h|
  {
    HexValue(h[2 * i]) * 16 + HexValue(h[2 * i + 1])
  }

  function Unhex(h: seq<byte>, n: nat): (bs: seq<byte>)
    requires 2 * n <= |h|
    ensures |bs| == n
  {
    seq(n, i requires 0 <= i < n => Pair(h, i))
  }

  /** Decoding inverts encoding, whatever follows. */
  lemma UnhexHex(bs: seq<byte>, tail: seq<byte>)
    ensures Unhex(Hex(bs) + tail, |bs|) == bs
  {
    var h := Hex(bs) + tail;
    forall i | 0 <= i < |bs|
      ensures Pair(h, i) == bs[i]
    {
      assert h[2 * i] == HexDigit(bs[i] / 16);
      assert h[2 * i + 1] == HexDigit(bs[i] % 16);
    }
    assert Unhex(h, |bs|) == bs;
  }

  lemma HexConcat(a: seq<byte>, b: seq<byte>)
    ensures Hex(a + b) == Hex(a) + Hex(b)
  {
    var c := a + b;
    forall i | 0 <= i < 2 * |c|
      ensures Hex(c)[i] == (Hex(a) + Hex(b))[i]
    {
      var k := i / 2;
      if i < 2 * |a| {
        assert c[k] == a[k];
      } else {
        assert (i - 2 * |a|) / 2 == k - |a| && (i - 2 * |a|) % 2 == i % 2;
        assert c[k] == b[k - |a|];
      }
    }
  }

  /** Hex text holds digits only. */
  lemma HexIsDigits(bs: seq<byte>)
    ensures forall i :: 0 <= i < |Hex(bs)| ==> 48 <= Hex(bs)[i] <= 57 || 97 <= Hex(bs)[i] <= 102
  {
  }

  // ----- escaped binary -----

  const ESC: byte := 0x7D

  /** b ^ 0x20 */
  function Flip(b: byte): byte { if (b / 32) % 2 == 1 then b - 32 else b + 32 }

  /** The bytes that n units at the start of x stand for, while x lasts. */
  function XBytes(x: seq<byte>, n: nat): seq<byte>
    decreases n
  {
    if n == 0 || x == [] || (x[0] == ESC && |x| == 1) then []
    else if x[0] == ESC then [Flip(x[1])] + XBytes(x[2..], n - 1)
    else [x[0]] + XBytes(x[1..], n - 1)
  }

  /** How much of x those n units take; |x| + 1 if x does not hold them. */
  function XLength(x: seq<byte>, n: nat): (k: nat)
    ensures k <= |x| + 1
    decreases n
  {
    if n == 0 then 0
    else if x == [] || (x[0] == ESC && |x| == 1) then |x| + 1
    else if x[0] == ESC then 2 + XLength(x[2..], n - 1)
    else 1 + XLength(x[1..], n - 1)
  }

  /** x holds n units. */
  predicate XFits(x: seq<byte>, n: nat) { XLength(x, n) <= |x| }

  /** Escaping as the protocol asks: '#', '$' and '}' always, and any other bytes the sender likes. */
  function Escape(bs: seq<byte>, extra: set<byte>): seq<byte> {
    if bs == [] then [] else Code(bs[0], extra) + Escape(bs[1..], extra)
  }

  function Code(b: byte, extra: set<byte>): seq<byte> { if MustEscape(b) || b in extra then [ESC, Flip(b)] else [b] }

  predicate MustEscape(b: byte) { b == 0x23 || b == 0x24 || b == ESC }

  lemma XEscaped(b: byte, rest: seq<byte>, n: nat)
    requires n > 0
    ensures var x := [ESC, Flip(b)] + rest;
            XBytes(x, n) == [b] + XBytes(rest, n - 1) && XLength(x, n) == 2 + XLength(rest, n - 1)
  {
    var x := [ESC, Flip(b)] + rest;
    assert x[2..] == rest;
    assert Flip(Flip(b)) == b;
  }

  lemma XPlain(b: byte, rest: seq<byte>, n: nat)
    requires n > 0 && b != ESC
    ensures var x := [b] + rest;
            XBytes(x, n) == [b] + XBytes(rest, n - 1) && XLength(x, n) == 1 + XLength(rest, n - 1)
  {
    var x := [b] + rest;
    assert x[1..] == rest;
  }

  /** Decoding inverts escaping and stops exactly where the text ends. */
  lemma {:induction false} UnescapeEscape(bs: seq<byte>, extra: set<byte>, tail: seq<byte>)
    ensures var x := Escape(bs, extra) + tail;
            XFits(x, |bs|) && XBytes(x, |bs|) == bs && XLength(x, |bs|) == |Escape(bs, extra)|
    decreases |bs|
  {
    hide XBytes, XLength, Flip;
    if bs == [] {
      XNone(Escape(bs, extra) + tail);
    } else {
      var b, rest := bs[0], Escape(bs[1..], extra) + tail;
      UnescapeEscape(bs[1..], extra, tail);
      Regroup(Code(b, extra), Escape(bs[1..], extra), tail);
      assert bs == [b] + bs[1..];
      hide Escape;
      if MustEscape(b) || b in extra {
        XEscaped(b, rest, |bs|);
      } else {
        XPlain(b, rest, |bs|);
      }
    }
  }

  lemma Regroup(a: seq<byte>, b: seq<byte>, c: seq<byte>)
    ensures (a + b) + c == a + (b + c)
  {
  }

  /** Escaped text never ends a packet early, unless the sender escapes the two bytes that flip to
      '#' and '$'. */
  lemma {:induction false} EscapeHidesFraming(bs: seq<byte>, extra: set<byte>)
    requires 0x03 !in extra && 0x04 !in extra
    ensures 0x23 !in Escape(bs, extra) && 0x24 !in Escape(bs, extra)
  {
    if bs != [] {
      EscapeHidesFraming(bs[1..], extra);
    }
  }

  // ----- memory -----

  type Mem = map<nat, byte>

  function At(m: Mem, a: nat): byte { if a in m then m[a] else 0 }
  function Bytes(m: Mem, a: nat, n: nat): (bs: seq<byte>)
    ensures |bs| == n
  {
    seq<byte>(n, i requires 0 <= i < n => At(m, a + i))
  }

  /** Exactly the bytes from a on are those of bs; all others are as they were. */
  ghost predicate Written(m: Mem, m': Mem, a: nat, bs: seq<byte>) {
    forall x: nat {:trigger At(m', x)} :: At(m', x) == if a <= x < a + |bs| then bs[x - a] else At(m, x)
  }

  function Put(m: Mem, a: nat, bs: seq<byte>): Mem
    decreases |bs|
  {
    if bs == [] then m else Put(m[a := bs[0]], a + 1, bs[1..])
  }

  lemma {:induction false} PutWritten(m: Mem, a: nat, bs: seq<byte>)
    ensures Written(m, Put(m, a, bs), a, bs)
    decreases |bs|
  {
    if bs != [] {
      var m1 := m[a := bs[0]];
      PutWritten(m1, a + 1, bs[1..]);
      var m' := Put(m1, a + 1, bs[1..]);
      forall x: nat
        ensures At(m', x) == if a <= x < a + |bs| then bs[x - a] else At(m, x)
      {
        assert At(m1, x) == if x == a then bs[0] else At(m, x);
      }
    }
  }

  lemma WrittenConcat(m: Mem, m1: Mem, m2: Mem, a: nat, s: seq<byte>, t: seq<byte>)
    requires Written(m, m1, a, s) && Written(m1, m2, a + |s|, t)
    ensures Written(m, m2, a, s + t)
  {
    forall x: nat
      ensures At(m2, x) == if a <= x < a + |s + t| then (s + t)[x - a] else At(m, x)
    {
      assert At(m1, x) == if a <= x < a + |s| then s[x - a] else At(m, x);
    }
  }

  /** Writing back what was read changes nothing. */
  lemma WriteBack(m: Mem, m': Mem, a: nat, n: nat)
    requires Written(m, m', a, Bytes(m, a, n))
    ensures forall x: nat {:trigger At(m', x)} :: At(m', x) == At(m, x)
  {
  }

  lemma BytesConcat(m: Mem, a: nat, n: nat, k: nat)
    ensures Bytes(m, a, n + k) == Bytes(m, a, n) + Bytes(m, a + n, k)
  {
  }

  // ----- accesses -----

  datatype Access = Access(addr: nat, size: nat, write: bool)

  predicate Aligned(addr: nat, size: nat) { size == 1 || (size == 2 && addr % 2 == 0) || (size == 4 && addr % 4 == 0) }

  /** The largest unit that is aligned at addr and fits in len. */
  function Unit(addr: nat, len: nat): (u: nat)
    requires len > 0
    ensures 0 < u <= len && Aligned(addr, u)
  {
    if len >= 4 && addr % 4 == 0 then 4 else if len >= 2 && addr % 2 == 0 then 2 else 1
  }

  function Accesses(addr: nat, len: nat, write: bool): seq<Access>
    decreases len
  {
    if len == 0 then [] else var u := Unit(addr, len); [Access(addr, u, write)] + Accesses(addr + u, len - u, write)
  }

  /** One, two or four bytes at a multiple of the size, and no larger such access ends before `end`. */
  ghost predicate Largest(a: nat, size: nat, end: nat) {
    && (size == 1 || size == 2 || size == 4) && a % size == 0
    && (size < 4 ==> a % 4 != 0 || a + 4 > end)
    && (size < 2 ==> a % 2 != 0 || a + 2 > end)
  }

  /** Every access is aligned and inside the range, and the largest that is; each starts where the one
      before ended, and together they cover the range. */
  ghost predicate Tiles(acc: seq<Access>, addr: nat, len: nat, write: bool) {
    && (acc == [] <==> len == 0)
    && (acc != [] ==> acc[0].addr == addr && acc[|acc| - 1].addr + acc[|acc| - 1].size == addr + len)
    && (forall i {:trigger acc[i]} :: 0 <= i < |acc| ==>
          && Aligned(acc[i].addr, acc[i].size) && acc[i].write == write
          && addr <= acc[i].addr && acc[i].addr + acc[i].size <= addr + len
          && Largest(acc[i].addr, acc[i].size, addr + len))
    && (forall i {:trigger acc[i]} :: 0 < i < |acc| ==> acc[i].addr == acc[i - 1].addr + acc[i - 1].size)
  }

  lemma {:induction false} AccessesTile(addr: nat, len: nat, write: bool)
    ensures Tiles(Accesses(addr, len, write), addr, len, write)
    decreases len
  {
    hide Tiles, Aligned, Largest;
    if len == 0 {
      TilesNone(addr, write);
    } else {
      var u := Unit(addr, len);
      AccessesTile(addr + u, len - u, write);
      UnitLargest(addr, len);
      TilesPrepend(Accesses(addr + u, len - u, write), addr, u, len, write);
    }
  }

  lemma UnitLargest(addr: nat, len: nat)
    requires len > 0
    ensures Largest(addr, Unit(addr, len), addr + len)
  {
  }

  lemma TilesNone(addr: nat, write: bool)
    ensures Tiles([], addr, 0, write)
  {
  }

  lemma TilesPrepend(rest: seq<Access>, addr: nat, u: nat, len: nat, write: bool)
    requires u <= len && Aligned(addr, u) && Largest(addr, u, addr + len) && Tiles(rest, addr + u, len - u, write)
    ensures Tiles([Access(addr, u, write)] + rest, addr, len, write)
  {
    var acc := [Access(addr, u, write)] + rest;
    assert forall i :: 0 < i < |acc| ==> acc[i] == rest[i - 1];
  }

  // ----- the program -----

  class Target {
    var mem: Mem
    var log: seq<Access>

    constructor (mem: Mem)
      ensures this.mem == mem && log == []
    {
      this.mem, log := mem, [];
    }

    method Load(addr: nat, size: nat) returns (cbuf: seq<byte>)
      modifies this`log
      ensures cbuf == Bytes(mem, addr, size) && log == old(log) + [Access(addr, size, false)]
    {
      cbuf := Bytes(mem, addr, size);
      log := log + [Access(addr, size, false)];
    }

    method Store(addr: nat, cbuf: seq<byte>)
      modifies this
      ensures Written(old(mem), mem, addr, cbuf) && log == old(log) + [Access(addr, |cbuf|, true)]
    {
      PutWritten(mem, addr, cbuf);
      mem := Put(mem, addr, cbuf);
      log := log + [Access(addr, |cbuf|, true)];
    }

    /** mem_to_hexbuf */
    method MemToHexbuf(addr: nat, len: int) returns (hbuf: seq<byte>)
      modifies this`log
      ensures var n := if len > 0 then len else 0;
              hbuf == Hex(Bytes(mem, addr, n)) && log == old(log) + Accesses(addr, n, false)
    {
      hide Hex, Bytes, Accesses;
      var p, left := addr, len;
      ghost var n := if len > 0 then len else 0;
      hbuf := [];
      HexEmpty(mem, addr);
      AccessNone(addr, false);
      while left > 0
        modifies this`log
        invariant p >= addr && (len > 0 ==> left >= 0 && p + left == addr + len) &&
                  (len <= 0 ==> left == len && p == addr)
        invariant hbuf == Hex(Bytes(mem, addr, p - addr))
        invariant log + Accesses(p, if left > 0 then left else 0, false) == old(log) + Accesses(addr, n, false)
        decreases left
      {
        var u := if left >= 4 && p % 4 == 0 then 4 else if left >= 2 && p % 2 == 0 then 2 else 1;
        assert u == Unit(p, left);
        ghost var log0 := log;
        var cbuf := Load(p, u);
        AccessStep(log0, p, left, false);
        BytesConcat(mem, addr, p - addr, u);
        HexConcat(Bytes(mem, addr, p - addr), cbuf);
        var digits := Digits(cbuf);
        hbuf := hbuf + digits;
        p, left := p + u, left - u;
      }
      AccessNone(p, false);
    }

    lemma HexEmpty(m: Mem, a: nat)
      ensures Hex(Bytes(m, a, 0)) == []
    {
    }

    /** hexbuf_to_mem */
    method HexbufToMem(hbuf: seq<byte>, addr: nat, len: int) returns (end: nat)
      requires 2 * len <= |hbuf|
      modifies this
      ensures var n := if len > 0 then len else 0;
              Written(old(mem), mem, addr, Unhex(hbuf, n)) && log == old(log) + Accesses(addr, n, true) &&
                end == addr + n
    {
      hide Unhex, Written, Accesses;
      var p, left, h := addr, len, 0;
      ghost var n := if len > 0 then len else 0;
      WrittenNone(mem, addr, hbuf);
      while left > 0
        invariant p >= addr && (len > 0 ==> left >= 0 && p + left == addr + len) &&
                  (len <= 0 ==> left == len && p == addr)
        invariant h == 2 * (p - addr) <= |hbuf|
        invariant Written(old(mem), mem, addr, Unhex(hbuf, p - addr))
        invariant log + Accesses(p, if left > 0 then left else 0, true) == old(log) + Accesses(addr, n, true)
        decreases left
      {
        var u := if left >= 4 && p % 4 == 0 then 4 else if left >= 2 && p % 2 == 0 then 2 else 1;
        assert u == Unit(p, left);
        ghost var log0, mem0 := log, mem;
        var cbuf := Undigits(hbuf, h, u);
        Store(p, cbuf);
        AccessStep(log0, p, left, true);
        WrittenConcat(old(mem), mem0, mem, addr, Unhex(hbuf, p - addr), cbuf);
        UnhexConcat(hbuf, p - addr, u, cbuf);
        p, left, h := p + u, left - u, h + 2 * u;
      }
      AccessNone(p, true);
      end := p;
    }

    lemma WrittenNone(m: Mem, a: nat, h: seq<byte>)
      ensures Written(m, m, a, Unhex(h, 0)) && Written(m, m, a, [])
    {
    }

    /** xmem_to_mem */
    method XmemToMem(xmem: seq<byte>, addr: nat, len: int) returns (end: nat)
      requires len > 0 ==> XFits(xmem, len)
      modifies this
      ensures var n := if len > 0 then len else 0;
              Written(old(mem), mem, addr, XBytes(xmem, n)) && log == old(log) + Accesses(addr, n, true) &&
                end == addr + n
    {
      hide XBytes, Written, XFits, Accesses;
      var p, left, x := addr, len, xmem;
      ghost var n := if len > 0 then len else 0;
      ghost var done: seq<byte> := [];
      WrittenNone(mem, addr, []);
      XNone(xmem);
      while left > 0
        invariant p >= addr && (len > 0 ==> left >= 0 && p + left == addr + len) &&
                  (len <= 0 ==> left == len && p == addr)
        invariant left >= 0 ==> XFits(x, left) && done + XBytes(x, left) == XBytes(xmem, n)
        invariant left < 0 ==> done == []
        invariant |done| == p - addr && Written(old(mem), mem, addr, done)
        invariant log + Accesses(p, if left > 0 then left else 0, true) == old(log) + Accesses(addr, n, true)
        decreases left
      {
        var u := if left >= 4 && p % 4 == 0 then 4 else if left >= 2 && p % 2 == 0 then 2 else 1;
        assert u == Unit(p, left);
        ghost var log0, mem0 := log, mem;
        var cbuf;
        cbuf, x := XUnits(x, u, left);
        Store(p, cbuf);
        AccessStep(log0, p, left, true);
        WrittenConcat(old(mem), mem0, mem, addr, done, cbuf);
        assert done + (cbuf + XBytes(x, left - u)) == (done + cbuf) + XBytes(x, left - u);
        done := done + cbuf;
        p, left := p + u, left - u;
      }
      XNone(x);
      assert done + [] == done == XBytes(xmem, n);
      AccessNone(p, true);
      end := p;
    }
  }

  lemma AccessStep(log: seq<Access>, p: nat, left: nat, write: bool)
    requires left > 0
    ensures var u := Unit(p, left);
            log + Accesses(p, left, write) == (log + [Access(p, u, write)]) + Accesses(p + u, left - u, write)
  {
  }

  lemma AccessNone(p: nat, write: bool)
    ensures Accesses(p, 0, write) == []
  {
  }

  lemma XNone(x: seq<byte>)
    ensures XBytes(x, 0) == [] && XFits(x, 0) && XLength(x, 0) == 0
  {
  }

  lemma UnhexConcat(h: seq<byte>, n: nat, u: nat, cbuf: seq<byte>)
    requires 2 * (n + u) <= |h| && |cbuf| == u && forall i :: 0 <= i < u ==> cbuf[i] == Pair(h, n + i)
    ensures Unhex(h, n + u) == Unhex(h, n) + cbuf
  {
  }

  /** The inner loop of mem_to_hexbuf. */
  method Digits(cbuf: seq<byte>) returns (h: seq<byte>)
    ensures h == Hex(cbuf)
  {
    h := [];
    var i := 0;
    while i < |cbuf|
      invariant 0 <= i <= |cbuf| && h == Hex(cbuf[..i])
    {
      assert cbuf[..i + 1] == cbuf[..i] + [cbuf[i]];
      HexConcat(cbuf[..i], [cbuf[i]]);
      HexOne(cbuf[i]);
      h := h + [HexDigit(cbuf[i] / 16)];
      h := h + [HexDigit(cbuf[i] % 16)];
      i := i + 1;
    }
    assert cbuf[..i] == cbuf;
  }

  lemma HexOne(b: byte)
    ensures Hex([b]) == [HexDigit(b / 16), HexDigit(b % 16)]
  {
  }

  /** The inner loops of hexbuf_to_mem. */
  method Undigits(hbuf: seq<byte>, h: nat, u: nat) returns (cbuf: seq<byte>)
    requires h % 2 == 0 && h + 2 * u <= |hbuf|
    ensures |cbuf| == u && forall i :: 0 <= i < u ==> cbuf[i] == Pair(hbuf, h / 2 + i)
  {
    cbuf := [];
    var i := 0;
    while i < u
      invariant 0 <= i <= u && |cbuf| == i && forall j :: 0 <= j < i ==> cbuf[j] == Pair(hbuf, h / 2 + j)
    {
      var c: byte := HexValue(hbuf[h + 2 * i]) * 16;
      assert 2 * (h / 2 + i) == h + 2 * i;
      cbuf := cbuf + [c + HexValue(hbuf[h + 2 * i + 1])];
      i := i + 1;
    }
  }

  /** What is known of x where n units are still to come. */
  lemma XStep(x: seq<byte>, n: nat)
    requires n > 0 && XFits(x, n)
    ensures x != [] && (x[0] == ESC ==> |x| >= 2)
    ensures var k := if x[0] == ESC then 2 else 1;
            XFits(x[k..], n - 1) && XBytes(x, n) == [if x[0] == ESC then Flip(x[1]) else x[0]] + XBytes(x[k..], n - 1)
  {
  }

  /** The inner loops of xmem_to_mem, with xbin_to_bin: u units off the front of x. */
  method XUnits(x: seq<byte>, u: nat, n: nat) returns (cbuf: seq<byte>, rest: seq<byte>)
    requires u <= n && XFits(x, n)
    ensures |cbuf| == u && XFits(rest, n - u) && XBytes(x, n) == cbuf + XBytes(rest, n - u)
  {
    hide XFits, XBytes, Flip;
    cbuf, rest := [], x;
    var i := 0;
    while i < u
      invariant 0 <= i <= u && |cbuf| == i && XFits(rest, n - i) && XBytes(x, n) == cbuf + XBytes(rest, n - i)
    {
      XStep(rest, n - i);
      if rest[0] == ESC {
        assert cbuf + ([Flip(rest[1])] + XBytes(rest[2..], n - i - 1)) ==
               cbuf + [Flip(rest[1])] + XBytes(rest[2..], n - i - 1);
        cbuf, rest := cbuf + [Flip(rest[1])], rest[2..];
      } else {
        assert cbuf + ([rest[0]] + XBytes(rest[1..], n - i - 1)) == cbuf + [rest[0]] + XBytes(rest[1..], n - i - 1);
        cbuf, rest := cbuf + [rest[0]], rest[1..];
      }
      i := i + 1;
    }
  }
}

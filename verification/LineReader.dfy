/**
  The chunked line reader of sim/simulator.c: line_reader_next over a read() that may deliver
  the stream in any pieces.
 */
module LineReader {

  const CAPACITY: nat := 2049   // sizeof(lr->buf)

  predicate IsBreak(c: char) { c == '\r' || c == '\n' }

  // ----- what the reader computes, character by character -----

  /** The lines completed so far and the unfinished one. */
  datatype Fed = Fed(lines: seq<seq<char>>, cur: seq<char>)

  /** One character: a break ends a non-empty line; a line that fills the buffer is dropped. */
  function Feed1(f: Fed, c: char): Fed {
    if IsBreak(c) then Fed(if f.cur == [] then f.lines else f.lines + [f.cur], [])
    else if |f.cur| + 1 == CAPACITY then Fed(f.lines, [])
    else Fed(f.lines, f.cur + [c])
  }

  function Feed(f: Fed, s: seq<char>): Fed
    decreases |s|
  {
    if s == [] then f else Feed(Feed1(f, s[0]), s[1..])
  }

  lemma {:induction false} FeedConcat(f: Fed, s: seq<char>, t: seq<char>)
    ensures Feed(f, s + t) == Feed(Feed(f, s), t)
    decreases |s|
  {
    if s == [] {
      assert s + t == t;
    } else {
      assert (s + t)[0] == s[0] && (s + t)[1..] == s[1..] + t;
      FeedConcat(Feed1(f, s[0]), s[1..], t);
    }
  }

  ghost predicate NoBreak(s: seq<char>) { forall i :: 0 <= i < |s| ==> !IsBreak(s[i]) }

  /** Characters without a break that fit just extend the unfinished line. */
  lemma {:induction false} FeedPlain(f: Fed, s: seq<char>)
    requires NoBreak(s) && |f.cur| + |s| < CAPACITY
    ensures Feed(f, s) == Fed(f.lines, f.cur + s)
    decreases |s|
  {
    if s == [] {
      assert f.cur + s == f.cur;
    } else {
      var f1 := Feed1(f, s[0]);
      assert f1 == Fed(f.lines, f.cur + [s[0]]);
      FeedPlain(f1, s[1..]);
      assert f.cur + s == f.cur + [s[0]] + s[1..];
    }
  }

  lemma FeedLine(lines: seq<seq<char>>, s: seq<char>, c: char)
    requires NoBreak(s) && |s| < CAPACITY && IsBreak(c)
    ensures Feed(Fed(lines, []), s + [c]) == Fed(if s == [] then lines else lines + [s], [])
  {
    FeedConcat(Fed(lines, []), s, [c]);
    FeedPlain(Fed(lines, []), s);
    assert [] + s == s;
    var f := Fed(lines, s);
    assert Feed(f, [c]) == Feed(Feed1(f, c), []) by { assert [c][1..] == []; }
  }

  /** A buffer full of characters without a break is dropped. */
  lemma FeedFull(lines: seq<seq<char>>, s: seq<char>)
    requires NoBreak(s) && |s| == CAPACITY
    ensures Feed(Fed(lines, []), s) == Fed(lines, [])
  {
    var t, c := s[..CAPACITY - 1], s[CAPACITY - 1];
    assert s == t + [c];
    FeedConcat(Fed(lines, []), t, [c]);
    FeedPlain(Fed(lines, []), t);
    assert [] + t == t;
    var f := Fed(lines, t);
    assert Feed(f, [c]) == Feed(Feed1(f, c), []) by { assert [c][1..] == []; }
  }

  // ----- the reference: split at breaks, drop empty lines -----

  /** The position of the first break, or the length. */
  function FirstBreak(s: seq<char>): (k: nat)
    ensures k <= |s|
    ensures forall i :: 0 <= i < k ==> !IsBreak(s[i])
    ensures k < |s| ==> IsBreak(s[k])
  {
    if s == [] || IsBreak(s[0]) then 0
    else
      var k := FirstBreak(s[1..]);
      assert forall i :: 0 < i < k + 1 ==> s[i] == s[1..][i - 1];
      1 + k
  }

  function Split(s: seq<char>): seq<seq<char>>
    decreases |s|
  {
    var k := FirstBreak(s);
    if k == |s| then [] else (if k == 0 then [] else [s[..k]]) + Split(s[k + 1..])
  }

  /** No terminated line is longer than the buffer allows. */
  ghost predicate LinesFit(s: seq<char>)
    decreases |s|
  {
    var k := FirstBreak(s);
    k == |s| || (k < CAPACITY && LinesFit(s[k + 1..]))
  }

  lemma {:induction false} FeedSegment(f: Fed, s: seq<char>)
    requires NoBreak(s) && |f.cur| < CAPACITY
    ensures Feed(f, s).lines == f.lines && |Feed(f, s).cur| < CAPACITY
    decreases |s|
  {
    if s != [] {
      FeedSegment(Feed1(f, s[0]), s[1..]);
    }
  }

  /** What one terminated segment contributes: itself if it fits, otherwise something shorter. */
  lemma SegmentPiece(lines: seq<seq<char>>, s: seq<char>, c: char) returns (piece: seq<seq<char>>)
    requires NoBreak(s) && IsBreak(c)
    ensures Feed(Fed(lines, []), s + [c]) == Fed(lines + piece, [])
    ensures |piece| <= (if s == [] then 0 else 1)
    ensures |s| < CAPACITY ==> piece == if s == [] then [] else [s]
    ensures |s| >= CAPACITY ==> piece == [] || |piece[0]| < |s|
  {
    if |s| < CAPACITY {
      FeedLine(lines, s, c);
      piece := if s == [] then [] else [s];
    } else {
      FeedConcat(Fed(lines, []), s, [c]);
      FeedSegment(Fed(lines, []), s);
      var f := Feed(Fed(lines, []), s);
      assert Feed(f, [c]) == Feed1(f, c) by { assert [c][1..] == []; }
      piece := if f.cur == [] then [] else [f.cur];
    }
  }

  /** The lines completed from a start with no unfinished line do not depend on earlier lines. */
  lemma {:induction false} FeedLines(s: seq<char>, lines: seq<seq<char>>, cur: seq<char>)
    ensures Feed(Fed(lines, cur), s).lines == lines + Feed(Fed([], cur), s).lines
    ensures Feed(Fed(lines, cur), s).cur == Feed(Fed([], cur), s).cur
    decreases |s|
  {
    if s != [] {
      var f, g := Feed1(Fed(lines, cur), s[0]), Feed1(Fed([], cur), s[0]);
      assert f.lines == lines + g.lines && f.cur == g.cur;
      FeedLines(s[1..], f.lines, f.cur);
      FeedLines(s[1..], g.lines, g.cur);
    }
  }

  /** One segment at a time. */
  lemma SplitStep(s: seq<char>) returns (piece: seq<seq<char>>)
    requires FirstBreak(s) < |s|
    ensures var k := FirstBreak(s);
            && Feed(Fed([], []), s).lines == piece + Feed(Fed([], []), s[k + 1..]).lines
            && |piece| <= (if k == 0 then 0 else 1)
            && (k < CAPACITY ==> piece == if k == 0 then [] else [s[..k]])
            && (k >= CAPACITY ==> piece == [] || |piece[0]| < k)
  {
    var k := FirstBreak(s);
    var seg, c, rest := s[..k], s[k], s[k + 1..];
    assert s == (seg + [c]) + rest;
    FeedConcat(Fed([], []), seg + [c], rest);
    piece := SegmentPiece([], seg, c);
    assert [] + piece == piece;
    FeedLines(rest, piece, []);
  }

  lemma {:induction false} NeverMore(s: seq<char>)
    ensures |Feed(Fed([], []), s).lines| <= |Split(s)|
    decreases |s|
  {
    var k := FirstBreak(s);
    if k < |s| {
      var piece := SplitStep(s);
      NeverMore(s[k + 1..]);
    } else {
      FeedSegment(Fed([], []), s);
    }
  }

  /** The reader returns the lines of the stream exactly when they all fit into its buffer. */
  lemma {:induction false} ReaderSplits(s: seq<char>)
    ensures Feed(Fed([], []), s).lines == Split(s) <==> LinesFit(s)
    decreases |s|
  {
    hide Feed;
    var k := FirstBreak(s);
    if k < |s| {
      var piece := SplitStep(s);
      var rest := s[k + 1..];
      ReaderSplits(rest);
      NeverMore(rest);
      var a, b := Feed(Fed([], []), rest).lines, Split(rest);
      if k < CAPACITY {
        assert piece + a == piece + b ==> a == b by {
          if piece + a == piece + b {
            assert a == (piece + a)[|piece|..] && b == (piece + b)[|piece|..];
          }
        }
      } else {
        assert Split(s) == [s[..k]] + b;
        assert piece + a != Split(s) by {
          if piece != [] { assert (piece + a)[0] == piece[0]; }
        }
      }
    } else {
      FeedSegment(Fed([], []), s);
    }
  }

  // ----- the lines as places in the stream -----

  /** s[i..j] is not empty, ends at a carriage return or line feed, holds neither, and begins behind one
      or at the beginning of the stream. */
  ghost predicate IsRun(s: seq<char>, i: nat, j: nat) {
    && i < j < |s| && (s[j] == '\r' || s[j] == '\n')
    && (forall m :: i <= m < j ==> s[m] != '\r' && s[m] != '\n')
    && (i == 0 || s[i - 1] == '\r' || s[i - 1] == '\n')
  }

  /** The lines are exactly those runs, each once and in order. */
  ghost predicate AreRuns(s: seq<char>, lines: seq<seq<char>>) {
    exists cuts: seq<(nat, nat)> :: CutAt(s, lines, cuts, 0)
  }

  /** The cuts are the runs that begin at p or later. */
  ghost predicate CutAt(s: seq<char>, lines: seq<seq<char>>, cuts: seq<(nat, nat)>, p: nat) {
    && |cuts| == |lines|
    && (forall n {:trigger cuts[n]} :: 0 <= n < |cuts| ==>
          && IsRun(s, cuts[n].0, cuts[n].1) && p <= cuts[n].0 && lines[n] == s[cuts[n].0..cuts[n].1])
    && (forall m, n {:trigger cuts[m], cuts[n]} :: 0 <= m < n < |cuts| ==> cuts[m].1 < cuts[n].0)
    && (forall i: nat, j: nat {:trigger IsRun(s, i, j)} :: p <= i && IsRun(s, i, j) ==> (i, j) in cuts)
  }

  ghost predicate RunsFit(s: seq<char>, p: nat) {
    forall i: nat, j: nat {:trigger IsRun(s, i, j)} :: p <= i && IsRun(s, i, j) ==> j - i <= 2048
  }

  ghost predicate AtStart(s: seq<char>, p: nat) { p <= |s| && (p == 0 || s[p - 1] == '\r' || s[p - 1] == '\n') }

  /** Of the runs from p on, the first ends at p + k, if k is not zero, and all others are behind it. */
  ghost predicate RunsFrom(s: seq<char>, p: nat, k: nat) {
    && p + k < |s| && (s[p + k] == '\r' || s[p + k] == '\n') && (k > 0 ==> IsRun(s, p, p + k))
    && forall i: nat, j: nat :: p <= i && IsRun(s, i, j) ==> (k > 0 && i == p && j == p + k) || p + k < i
  }

  ghost predicate NoRuns(s: seq<char>, p: nat) { forall i: nat, j: nat :: p <= i ==> !IsRun(s, i, j) }

  /** Behind a break or at the beginning, up to the next break, there is one run or none. */
  lemma NextRun(s: seq<char>, p: nat)
    requires AtStart(s, p)
    ensures var k := FirstBreak(s[p..]);
            if k < |s| - p then RunsFrom(s, p, k) && AtStart(s, p + k + 1) else NoRuns(s, p)
  {
    var t, k := s[p..], FirstBreak(s[p..]);
    assert forall m :: 0 <= m < |t| ==> t[m] == s[p + m];
    assert forall m :: p <= m < p + k ==> s[m] == t[m - p];
    forall i: nat, j: nat | p <= i && IsRun(s, i, j)
      ensures k < |s| - p && ((k > 0 && i == p && j == p + k) || p + k < i)
    {
      assert t[j - p] == s[j];
      if i <= p + k {
        assert i > p ==> i - 1 - p < k;
        assert s[p + k] == t[k];
      }
    }
  }

  lemma {:induction false} SplitRuns(s: seq<char>, p: nat) returns (cuts: seq<(nat, nat)>)
    requires AtStart(s, p)
    ensures CutAt(s, Split(s[p..]), cuts, p)
    decreases |s| - p
  {
    var k := FirstBreak(s[p..]);
    NextRun(s, p);
    hide IsRun, CutAt, RunsFrom, NoRuns;
    if k == |s| - p {
      cuts := [];
      NoCuts(s, p);
    } else {
      var rest := SplitRuns(s, p + k + 1);
      assert s[p..][k + 1..] == s[p + k + 1..] && s[p..][..k] == s[p..p + k];
      var lines := Split(s[p + k + 1..]);
      if k == 0 {
        cuts := rest;
        assert [] + lines == lines;
        SameCuts(s, lines, rest, p);
      } else {
        cuts := [(p, p + k)] + rest;
        MoreCuts(s, lines, rest, p, k);
      }
    }
  }

  lemma NoCuts(s: seq<char>, p: nat)
    requires NoRuns(s, p)
    ensures CutAt(s, [], [], p)
  {
    hide IsRun;
  }

  lemma SameCuts(s: seq<char>, lines: seq<seq<char>>, rest: seq<(nat, nat)>, p: nat)
    requires RunsFrom(s, p, 0) && CutAt(s, lines, rest, p + 1)
    ensures CutAt(s, lines, rest, p)
  {
    hide IsRun;
  }

  lemma MoreCuts(s: seq<char>, lines: seq<seq<char>>, rest: seq<(nat, nat)>, p: nat, k: nat)
    requires k > 0 && RunsFrom(s, p, k) && CutAt(s, lines, rest, p + k + 1)
    ensures CutAt(s, [s[p..p + k]] + lines, [(p, p + k)] + rest, p)
  {
    hide IsRun;
    var cuts, all := [(p, p + k)] + rest, [s[p..p + k]] + lines;
    assert forall n :: 0 < n < |cuts| ==> cuts[n] == rest[n - 1] && all[n] == lines[n - 1];
    forall m, n {:trigger cuts[m], cuts[n]} | 0 <= m < n < |cuts|
      ensures cuts[m].1 < cuts[n].0
    {
      if m > 0 { assert rest[m - 1].1 < rest[n - 1].0; }
    }
    forall i: nat, j: nat {:trigger IsRun(s, i, j)} | p <= i && IsRun(s, i, j)
      ensures (i, j) in cuts
    {
      if i == p && j == p + k { assert cuts[0] == (i, j); }
    }
  }

  lemma {:induction false} FitRuns(s: seq<char>, p: nat)
    requires AtStart(s, p)
    ensures LinesFit(s[p..]) <==> RunsFit(s, p)
    decreases |s| - p
  {
    var k := FirstBreak(s[p..]);
    NextRun(s, p);
    FitStep(s, p);
    hide IsRun, LinesFit, RunsFit, RunsFrom, FirstBreak;
    if k < |s| - p {
      FitRuns(s, p + k + 1);
      RunsFitStep(s, p, k);
    } else {
      NoneFits(s, p);
    }
  }

  lemma FitStep(s: seq<char>, p: nat)
    requires p <= |s|
    ensures var k := FirstBreak(s[p..]);
            LinesFit(s[p..]) <==> k == |s| - p || (k <= 2048 && LinesFit(s[p + k + 1..]))
  {
    var k := FirstBreak(s[p..]);
    if k < |s| - p { assert s[p..][k + 1..] == s[p + k + 1..]; }
  }

  lemma NoneFits(s: seq<char>, p: nat)
    requires NoRuns(s, p)
    ensures RunsFit(s, p)
  {
    hide IsRun;
  }

  lemma RunsFitStep(s: seq<char>, p: nat, k: nat)
    requires RunsFrom(s, p, k)
    ensures RunsFit(s, p) <==> k <= 2048 && RunsFit(s, p + k + 1)
  {
    hide IsRun;
    if k > 2048 { assert IsRun(s, p, p + k); }
  }

  /** No line is empty or holds a break. */
  ghost predicate Clean(lines: seq<seq<char>>) {
    forall n {:trigger lines[n]} :: 0 <= n < |lines| ==>
      lines[n] != [] && forall m :: 0 <= m < |lines[n]| ==> lines[n][m] != '\r' && lines[n][m] != '\n'
  }

  lemma {:induction false} FeedClean(f: Fed, s: seq<char>)
    requires Clean(f.lines) && forall m :: 0 <= m < |f.cur| ==> f.cur[m] != '\r' && f.cur[m] != '\n'
    ensures Clean(Feed(f, s).lines)
    decreases |s|
  {
    if s != [] {
      FeedClean(Feed1(f, s[0]), s[1..]);
    }
  }

  /** The buffer b holds a line that ends at k. */
  lemma LineEnds(done: seq<char>, lines: seq<seq<char>>, b: seq<char>, k: nat)
    requires Feed(Fed([], []), done) == Fed(lines, []) && k < |b| <= CAPACITY && NoBreak(b[..k]) && IsBreak(b[k])
    ensures Feed(Fed([], []), done + b[..k + 1]) == Fed(if b[..k] == [] then lines else lines + [b[..k]], [])
    ensures done + b == (done + b[..k + 1]) + b[k + 1..]
  {
    assert b[..k + 1] == b[..k] + [b[k]];
    FeedLine(lines, b[..k], b[k]);
    FeedConcat(Fed([], []), done, b[..k + 1]);
    assert b == b[..k + 1] + b[k + 1..];
  }

  // ----- the reader itself -----

  /** The file descriptor: the data still to come, and how much each read() delivers at most. */
  class Channel {
    var data: seq<char>
    var sizes: seq<nat>
    var fails: bool

    constructor (data: seq<char>, sizes: seq<nat>)
      ensures this.data == data && this.sizes == sizes && !fails
    {
      this.data, this.sizes, fails := data, sizes, false;
    }

    /** read(): some of the next characters, but none only at the end or after a failure. */
    method Read(room: nat) returns (len: int, chunk: seq<char>)
      modifies this
      ensures len == -1 || len == |chunk| <= room
      ensures len > 0 ==> old(data) == chunk + data
      ensures len <= 0 ==> data == old(data) && chunk == []
      ensures len == 0 ==> old(data) == [] || room == 0
      ensures fails == old(fails) && (len == -1 <==> fails)
    {
      if fails {
        return -1, [];
      }
      var n := if sizes == [] then |data| else if sizes[0] == 0 then 1 else sizes[0];
      if sizes != [] {
        sizes := sizes[1..];
      }
      n := if n > |data| then |data| else n;
      n := if n > room then room else n;
      chunk, len := data[..n], n;
      data := data[n..];
      assert old(data) == chunk + data;
    }
  }

  class Reader {
    const buf: array<char>
    var bufUsed: nat
    var lineStart: nat
    ghost var taken: seq<char>          // everything read from the channel
    ghost var done: seq<char>           // the part of it before lineStart
    ghost var lines: seq<seq<char>>     // the lines returned

    ghost predicate Valid()
      reads this, buf
    {
      && buf.Length == CAPACITY && lineStart <= bufUsed <= CAPACITY
      && taken == done + buf[lineStart..bufUsed]
      && Feed(Fed([], []), done) == Fed(lines, [])
    }

    constructor ()
      ensures Valid() && fresh(buf) && taken == [] && lines == []
    {
      buf := new char[CAPACITY](_ => '\0');
      bufUsed, lineStart := 0, 0;
      taken, done, lines := [], [], [];
    }

    /** A break at index i ends the line that begins at lineStart. */
    method EndLine(i: nat) returns (line: seq<char>)
      requires Valid() && lineStart <= i < bufUsed && IsBreak(buf[i]) && NoBreak(buf[lineStart..i])
      modifies this`lineStart, this`done, this`lines, buf
      ensures Valid() && lineStart == i + 1 && taken == old(taken) && line == old(buf[lineStart..i])
      ensures lines == (if line == [] then old(lines) else old(lines) + [line]) && |done| > |old(done)|
      ensures forall j :: 0 <= j < CAPACITY && j != i ==> buf[j] == old(buf[j])
    {
      hide Feed, NoBreak;
      line := buf[lineStart..i];
      ghost var b, k := buf[lineStart..bufUsed], i - lineStart;
      assert b[..k] == line && b[k] == buf[i] && b[k + 1..] == buf[i + 1..bufUsed];
      LineEnds(done, lines, b, k);
      done := done + b[..k + 1];
      lines := if line == [] then lines else lines + [line];
      buf[i] := '\0';
      lineStart := i + 1;
      assert buf[i + 1..bufUsed] == b[k + 1..];
    }

    /** Looks for a complete non-empty line in the buffer. */
    method Scan() returns (found: bool, line: seq<char>)
      requires Valid()
      modifies this`lineStart, this`done, this`lines, buf
      ensures Valid() && taken == old(taken) && |done| >= |old(done)|
      ensures found ==> line != [] && NoBreak(line) && lines == old(lines) + [line] && |done| > |old(done)|
      ensures !found ==> lines == old(lines) && NoBreak(buf[lineStart..bufUsed])
    {
      var i := lineStart;
      while i < bufUsed
        invariant Valid() && lineStart <= i <= bufUsed && NoBreak(buf[lineStart..i])
        invariant taken == old(taken) && lines == old(lines) && bufUsed == old(bufUsed) && |done| >= |old(done)|
      {
        if IsBreak(buf[i]) {
          line := EndLine(i);
          if line != [] {
            return true, line;
          }
        }
        i := i + 1;
      }
      return false, [];
    }

    /** memmove of the unfinished line to the front of the buffer. */
    method MoveDown(n: nat)
      requires buf.Length == CAPACITY && lineStart + n <= CAPACITY
      modifies buf
      ensures buf[0..n] == old(buf[lineStart..lineStart + n])
    {
      ghost var rest := buf[lineStart..lineStart + n];
      var i := 0;
      while i < n
        invariant 0 <= i <= n
        invariant buf[..i] == rest[..i] && buf[lineStart + i..lineStart + n] == rest[i..]
      {
        assert buf[lineStart + i] == rest[i];
        buf[i] := buf[lineStart + i];
        i := i + 1;
      }
    }

    /** Moves the unfinished line to the front; a buffer without room is emptied. */
    method Compact()
      requires Valid() && NoBreak(buf[lineStart..bufUsed])
      modifies this`bufUsed, this`lineStart, this`done, buf
      ensures Valid() && lineStart == 0 && bufUsed < CAPACITY && taken == old(taken) && lines == old(lines)
      ensures NoBreak(buf[0..bufUsed]) && |done| >= |old(done)|
    {
      hide Feed;
      ghost var rest := buf[lineStart..bufUsed];
      bufUsed := bufUsed - lineStart;
      MoveDown(bufUsed);
      lineStart := 0;
      if CAPACITY - bufUsed <= 0 {
        FeedFull(lines, rest);
        FeedConcat(Fed([], []), done, rest);
        done := done + rest;
        bufUsed := 0;
      }
    }

    /** Appends a chunk behind the used part of the buffer. */
    method Fill(chunk: seq<char>)
      requires Valid() && lineStart == 0 && bufUsed + |chunk| <= CAPACITY
      modifies this`bufUsed, this`taken, buf
      ensures Valid() && taken == old(taken) + chunk && lines == old(lines)
    {
      hide Feed;
      ghost var before := buf[0..bufUsed];
      var i := 0;
      while i < |chunk|
        modifies buf
        invariant 0 <= i <= |chunk| && buf[..bufUsed] == before && buf[bufUsed..bufUsed + i] == chunk[..i]
      {
        buf[bufUsed + i] := chunk[i];
        i := i + 1;
      }
      assert buf[0..bufUsed + |chunk|] == before + chunk;
      bufUsed := bufUsed + |chunk|;
      taken := taken + chunk;
    }

    /** line_reader_next: the next non-empty line, 0 at the end of the stream, -1 on a failure. */
    method Next(fd: Channel) returns (len: int, line: seq<char>)
      requires Valid()
      modifies this`bufUsed, this`lineStart, this`taken, this`done, this`lines, buf, fd
      ensures Valid() && taken + fd.data == old(taken + fd.data)
      ensures len > 0 ==> len == |line| && lines == old(lines) + [line] && |done| > |old(done)|
      ensures len > 0 ==> forall m :: 0 <= m < |line| ==> line[m] != '\r' && line[m] != '\n'
      ensures len <= 0 ==> lines == old(lines) && Feed(Fed([], []), taken).lines == lines
      ensures len == 0 ==> fd.data == []
      ensures -1 <= len && (len == -1 ==> fd.fails) && fd.fails == old(fd.fails) && |done| >= |old(done)|
    {
      while true
        invariant Valid() && taken + fd.data == old(taken + fd.data) && lines == old(lines)
        invariant |done| >= |old(done)| && fd.fails == old(fd.fails)
        decreases |fd.data|
      {
        var found;
        found, line := Scan();
        if found {
          return |line|, line;
        }
        Compact();
        var chunk;
        ghost var t, d := taken, fd.data;
        len, chunk := fd.Read(CAPACITY - bufUsed);
        if len <= 0 {
          Unfinished();
          return;
        }
        assert t + d == (t + chunk) + fd.data;
        Fill(chunk);
      }
    }

    /** What is left in the buffer after a scan completes no line. */
    lemma Unfinished()
      requires Valid() && lineStart == 0 && bufUsed < CAPACITY && NoBreak(buf[0..bufUsed])
      ensures Feed(Fed([], []), taken).lines == lines
    {
      FeedConcat(Fed([], []), done, buf[0..bufUsed]);
      FeedSegment(Fed(lines, []), buf[0..bufUsed]);
    }
  }

  /**
    However the stream is cut into pieces, reading to its end returns the same lines.  No line is
    empty or holds a carriage return or line feed.  If no run between such characters is longer than
    2048, the lines are exactly the runs that one of them ends, in order.
   */
  method ReadAll(stream: seq<char>, sizes: seq<nat>) returns (all: seq<seq<char>>)
    ensures all == Feed(Fed([], []), stream).lines
    ensures forall n :: 0 <= n < |all| ==>
              all[n] != [] && forall m :: 0 <= m < |all[n]| ==> all[n][m] != '\r' && all[n][m] != '\n'
    ensures (forall i: nat, j: nat {:trigger IsRun(stream, i, j)} :: IsRun(stream, i, j) ==> j - i <= 2048) <==>
            all == Split(stream)
    ensures (forall i: nat, j: nat {:trigger IsRun(stream, i, j)} :: IsRun(stream, i, j) ==> j - i <= 2048) ==>
            AreRuns(stream, all)
  {
    hide Feed, LinesFit, Split, IsRun, CutAt;
    var fd := new Channel(stream, sizes);
    var reader := new Reader();
    all := [];
    var len, line := reader.Next(fd);
    while len > 0
      invariant reader.Valid() && !fd.fails && reader.taken + fd.data == stream && fresh(fd) && fresh(reader) &&
                fresh(reader.buf)
      invariant len > 0 ==> reader.lines == all + [line]
      invariant len <= 0 ==>
                  reader.lines == all && len == 0 && fd.data == [] && Feed(Fed([], []), reader.taken).lines == all
      decreases |stream| - |reader.done|, len > 0
    {
      all := all + [line];
      len, line := reader.Next(fd);
    }
    assert reader.taken + [] == reader.taken;
    ReaderSplits(stream);
    FeedClean(Fed([], []), stream);
    FitRuns(stream, 0);
    assert stream[0..] == stream;
    ghost var cuts := SplitRuns(stream, 0);
  }
}

/**
  One merge and one half-sort, access by access: the inductive invariant of the
  registers and the work array, and how foreign stores leave it alone.
 */
module SmpMergeProof {
  import opened Arithmetic
  import opened MergeSpec
  import opened SmpSort

  // ----- one merge -----

  /** Where the pointers may stand: the source is a0..a0+2h, the destination d0..d0+2h. */
  ghost predicate MergeGeo(m: MergeRegs, a0: int, d0: int, h: nat) {
    && m.h == h > 0 && m.alim == a0 + h && m.blim == a0 + 2 * h && m.d == d0 + m.i
    && (match m.pc
        case Merged => false
        case LoadRest => m.i < 2 * h && a0 <= m.s && m.s + (2 * h - m.i) <= m.blim
        case StoreRest => m.i < 2 * h && a0 <= m.s && m.s + (2 * h - m.i) <= m.blim
        case _ => a0 <= m.a < m.alim <= m.b < m.blim && m.i == (m.a - a0) + (m.b - m.alim))
  }

  ghost predicate Room(w: seq<int>, a0: int, d0: int, h: nat) {
    && 0 <= a0 && a0 + 2 * h <= |w| && 0 <= d0 && d0 + 2 * h <= |w|
    && (a0 + 2 * h <= d0 || d0 + 2 * h <= a0)
  }

  /** What is still to be stored, given the source blocks S. */
  ghost function Rest(m: MergeRegs, S: seq<int>, a0: int, d0: int): seq<int>
    requires MergeGeo(m, a0, d0, m.h) && |S| == 2 * m.h
  {
    if m.pc.LoadRest? || m.pc.StoreRest? then S[m.s - a0..m.s - a0 + (2 * m.h - m.i)]
    else Merge(S[m.a - a0..m.h], S[m.b - a0..])
  }

  /** The registers against the source blocks S and the part D of the result already stored. */
  ghost predicate MergeData(m: MergeRegs, S: seq<int>, D: seq<int>, a0: int, d0: int)
    requires MergeGeo(m, a0, d0, m.h) && |S| == 2 * m.h
  {
    && |D| == m.i
    && D + Rest(m, S, a0, d0) == Merge(S[..m.h], S[m.h..])
    && (m.pc.LoadB? || m.pc.LoadWinner? || m.pc.StoreWinner? ==> m.va == S[m.a - a0])
    && (m.pc.LoadWinner? || m.pc.StoreWinner? ==> m.vb == S[m.b - a0])
    && (m.pc.StoreWinner? ==> m.x == if m.va < m.vb then m.va else m.vb)
    && (m.pc.StoreRest? ==> m.x == S[m.s - a0])
  }

  ghost predicate MergeAfter(m: MergeRegs, S: seq<int>, D: seq<int>, a0: int, d0: int, h: nat)
    requires |S| == 2 * h
  {
    if m.pc.Merged? then D == Merge(S[..h], S[h..])
    else MergeGeo(m, a0, d0, h) && MergeData(m, S, D, a0, d0)
  }

  lemma MergeLoad(m: MergeRegs, S: seq<int>, D: seq<int>, a0: int, d0: int)
    requires MergeGeo(m, a0, d0, m.h) && |S| == 2 * m.h && MergeData(m, S, D, a0, d0)
    requires MergeOp(m).Load?
    ensures a0 <= MergeOp(m).loc.a < a0 + 2 * m.h
    ensures MergeAfter(MergeNext(m, S[MergeOp(m).loc.a - a0]), S, D, a0, d0, m.h)
  {
    hide Merge, Rest;
    var m' := MergeNext(m, S[MergeOp(m).loc.a - a0]);
    assert MergeGeo(m', a0, d0, m.h);
    RestKept(m, m', S, a0, d0);
  }

  /** What remains depends on the pointers, not on the loaded values. */
  lemma RestKept(m: MergeRegs, m': MergeRegs, S: seq<int>, a0: int, d0: int)
    requires MergeGeo(m, a0, d0, m.h) && MergeGeo(m', a0, d0, m.h) && |S| == 2 * m.h
    requires m'.a == m.a && m'.b == m.b && m'.s == m.s && m'.i == m.i
    requires (m'.pc.LoadRest? || m'.pc.StoreRest?) <==> (m.pc.LoadRest? || m.pc.StoreRest?)
    ensures Rest(m', S, a0, d0) == Rest(m, S, a0, d0)
  {
    hide Merge;
  }

  lemma Unfold(D: seq<int>, x: int, rest: seq<int>)
    ensures D + ([x] + rest) == (D + [x]) + rest
  {
  }

  lemma MergeHead(A: seq<int>, B: seq<int>)
    requires A != [] && B != []
    ensures Merge(A, B) == if A[0] < B[0] then [A[0]] + Merge(A[1..], B) else [B[0]] + Merge(A, B[1..])
    ensures |A| == 1 ==> Merge(A[1..], B) == B
    ensures |B| == 1 ==> Merge(A, B[1..]) == A
  {
  }

  lemma WinnerTaken(S: seq<int>, h: nat, x: nat, y: nat, D: seq<int>, whole: seq<int>) returns (rest: seq<int>)
    requires x < h <= y < |S| == 2 * h && D + Merge(S[x..h], S[y..]) == whole
    ensures (D + [if S[x] < S[y] then S[x] else S[y]]) + rest == whole
    ensures S[x] < S[y] ==> rest == Merge(S[x + 1..h], S[y..])
    ensures S[x] < S[y] && x + 1 == h ==> rest == S[y..]
    ensures S[x] >= S[y] ==> rest == Merge(S[x..h], S[y + 1..])
    ensures S[x] >= S[y] && y + 1 == |S| ==> rest == S[x..h]
  {
    hide Merge;
    var A, B := S[x..h], S[y..];
    assert A[0] == S[x] && B[0] == S[y];
    assert A[1..] == S[x + 1..h] && B[1..] == S[y + 1..];
    MergeHead(A, B);
    rest := if S[x] < S[y] then Merge(A[1..], B) else Merge(A, B[1..]);
    Unfold(D, if S[x] < S[y] then S[x] else S[y], rest);
  }

  /** The merge equation after storing the winner, with what then remains. */
  lemma WinnerStored(m: MergeRegs, S: seq<int>, D: seq<int>, a0: int, d0: int) returns (rest: seq<int>)
    requires MergeGeo(m, a0, d0, m.h) && |S| == 2 * m.h && MergeData(m, S, D, a0, d0)
    requires m.pc.StoreWinner?
    ensures (D + [m.x]) + rest == Merge(S[..m.h], S[m.h..])
    ensures m.va < m.vb ==> rest == Merge(S[m.a + 1 - a0..m.h], S[m.b - a0..])
    ensures m.va < m.vb && m.a + 1 == m.alim ==> rest == S[m.b - a0..]
    ensures !(m.va < m.vb) ==> rest == Merge(S[m.a - a0..m.h], S[m.b + 1 - a0..])
    ensures !(m.va < m.vb) && m.b + 1 == m.blim ==> rest == S[m.a - a0..m.h]
  {
    hide Merge;
    var x, y := m.a - a0, m.b - a0;
    rest := WinnerTaken(S, m.h, x, y, D, Merge(S[..m.h], S[m.h..]));
  }

  lemma MergeStoreWinner(m: MergeRegs, S: seq<int>, D: seq<int>, a0: int, d0: int)
    requires MergeGeo(m, a0, d0, m.h) && |S| == 2 * m.h && MergeData(m, S, D, a0, d0)
    requires m.pc.StoreWinner?
    ensures MergeAfter(MergeNext(m, 0), S, D + [m.x], a0, d0, m.h)
  {
    hide Merge;
    var rest := WinnerStored(m, S, D, a0, d0);
    var m' := MergeNext(m, 0);
    assert MergeGeo(m', a0, d0, m.h);
    assert Rest(m', S, a0, d0) == rest;
  }

  lemma MergeStoreRest(m: MergeRegs, S: seq<int>, D: seq<int>, a0: int, d0: int)
    requires MergeGeo(m, a0, d0, m.h) && |S| == 2 * m.h && MergeData(m, S, D, a0, d0)
    requires m.pc.StoreRest?
    ensures MergeAfter(MergeNext(m, 0), S, D + [m.x], a0, d0, m.h)
  {
    hide Merge, Rest;
    var k := m.s - a0;
    var e := k + (2 * m.h - m.i);
    RestIs(m, S, a0, d0, k, e);
    RestTaken(S, k, e, D, Merge(S[..m.h], S[m.h..]));
    var m' := MergeNext(m, 0);
    if !m'.pc.Merged? {
      RestIs(m', S, a0, d0, k + 1, e);
    }
  }

  lemma RestIs(m: MergeRegs, S: seq<int>, a0: int, d0: int, k: nat, e: nat)
    requires MergeGeo(m, a0, d0, m.h) && |S| == 2 * m.h && (m.pc.LoadRest? || m.pc.StoreRest?)
    requires m.s == a0 + k && e == k + (2 * m.h - m.i)
    ensures e <= |S| && Rest(m, S, a0, d0) == S[k..e]
  {
    hide Merge;
  }

  lemma RestTaken(S: seq<int>, k: nat, e: nat, D: seq<int>, whole: seq<int>)
    requires k < e <= |S| && D + S[k..e] == whole
    ensures (D + [S[k]]) + S[k + 1..e] == whole
    ensures k + 1 == e ==> D + [S[k]] == whole
  {
    assert S[k..e] == [S[k]] + S[k + 1..e];
    Unfold(D, S[k], S[k + 1..e]);
  }

  /** One access keeps the merge invariant, or completes the merge of the two blocks. */
  lemma MergeStep(m: MergeRegs, w: seq<int>, a0: int, d0: int, h: nat)
    requires Room(w, a0, d0, h) && MergeGeo(m, a0, d0, h)
    requires MergeData(m, w[a0..a0 + 2 * h], w[d0..m.d], a0, d0)
    ensures var m' := MergeNext(m, Read(w, MergeOp(m)));
            && d0 <= m'.d <= d0 + 2 * h
            && var u := After(w, MergeOp(m));
            && |u| == |w| && u[a0..a0 + 2 * h] == w[a0..a0 + 2 * h]
            && MergeAfter(m', w[a0..a0 + 2 * h], u[d0..m'.d], a0, d0, h)
            && (m'.pc.Merged? ==> m'.d == d0 + 2 * h)
  {
    hide Merge, Rest, MergeData, MergeNext;
    MergeStepFrame(m, w, a0, d0, h);
    if MergeOp(m).Store? {
      MergeStoreStep(m, w, a0, d0, h);
    } else {
      MergeLoad(m, w[a0..a0 + 2 * h], w[d0..m.d], a0, d0);
      LoadKeeps(m, Read(w, MergeOp(m)));
    }
  }

  /** A load moves no destination pointer and does not end the merge. */
  lemma LoadKeeps(m: MergeRegs, v: int)
    requires MergeOp(m).Load?
    ensures MergeNext(m, v).d == m.d && !MergeNext(m, v).pc.Merged?
  {
  }

  lemma MergeStoreStep(m: MergeRegs, w: seq<int>, a0: int, d0: int, h: nat)
    requires Room(w, a0, d0, h) && MergeGeo(m, a0, d0, h) && MergeOp(m).Store?
    requires MergeData(m, w[a0..a0 + 2 * h], w[d0..m.d], a0, d0)
    ensures var m', u := MergeNext(m, 0), w[m.d := m.x];
            && m'.d == m.d + 1 <= d0 + 2 * h
            && u[a0..a0 + 2 * h] == w[a0..a0 + 2 * h]
            && MergeAfter(m', w[a0..a0 + 2 * h], u[d0..m'.d], a0, d0, h)
            && (m'.pc.Merged? ==> m'.d == d0 + 2 * h)
  {
    hide Merge, Rest, MergeData, MergeNext, MergeAfter, MergeGeo;
    StoreMoves(m, a0, d0, h);
    StoreAdvances(m, w[a0..a0 + 2 * h], w[d0..m.d], a0, d0, h);
    StoreNext(w, d0, m.d, m.x);
    StoreAway(w, m.d, m.x, a0, a0 + 2 * h);
  }

  lemma StoreAdvances(m: MergeRegs, S: seq<int>, D: seq<int>, a0: int, d0: int, h: nat)
    requires MergeGeo(m, a0, d0, h) && MergeOp(m).Store? && |S| == 2 * h && MergeData(m, S, D, a0, d0)
    ensures MergeAfter(MergeNext(m, 0), S, D + [m.x], a0, d0, h)
  {
    hide Merge, Rest, MergeData, MergeNext, MergeAfter;
    if m.pc.StoreWinner? {
      MergeStoreWinner(m, S, D, a0, d0);
    } else {
      MergeStoreRest(m, S, D, a0, d0);
    }
  }

  lemma StoreMoves(m: MergeRegs, a0: int, d0: int, h: nat)
    requires MergeGeo(m, a0, d0, h) && MergeOp(m).Store?
    ensures var m' := MergeNext(m, 0);
            && d0 <= m.d && m'.d == m.d + 1 <= d0 + 2 * h && (m'.pc.Merged? ==> m'.d == d0 + 2 * h)
            && m.h == h
  {
  }

  ghost function After(w: seq<int>, op: Op): seq<int> {
    if op.Store? && op.loc.Work? && InRange(w, op.loc.a) then w[op.loc.a := op.v] else w
  }

  ghost function Read(w: seq<int>, op: Op): int {
    if op.Load? && op.loc.Work? && InRange(w, op.loc.a) then w[op.loc.a] else 0
  }

  /** One access of a merge stays inside the two blocks and stores only in the destination. */
  lemma MergeStepFrame(m: MergeRegs, w: seq<int>, a0: int, d0: int, h: nat)
    requires Room(w, a0, d0, h) && MergeGeo(m, a0, d0, h)
    ensures var op := MergeOp(m);
            && !op.Idle? && op.loc.Work? && InRange(w, op.loc.a)
            && (a0 <= op.loc.a < a0 + 2 * h || d0 <= op.loc.a < d0 + 2 * h)
            && (op.Store? ==> d0 <= op.loc.a < d0 + 2 * h)
    ensures var m' := MergeNext(m, Read(w, MergeOp(m)));
            m'.h == h && (m'.pc.Merged? || MergeGeo(m', a0, d0, h))
  {
    GeoNext(m, Read(w, MergeOp(m)), a0, d0, h);
    hide MergeNext;
  }

  lemma GeoNext(m: MergeRegs, v: int, a0: int, d0: int, h: nat)
    requires MergeGeo(m, a0, d0, h)
    ensures var m' := MergeNext(m, v); m'.h == h && (m'.pc.Merged? || MergeGeo(m', a0, d0, h))
  {
  }

  /** Storing v just past a finished prefix extends it. */
  lemma StoreNext(w: seq<int>, d0: int, d: int, v: int)
    requires 0 <= d0 <= d < |w|
    ensures w[d := v][d0..d + 1] == w[d0..d] + [v]
  {
  }

  lemma StoreAway(w: seq<int>, d: int, v: int, lo: int, hi: int)
    requires 0 <= d < |w| && 0 <= lo <= hi <= |w| && (d < lo || hi <= d)
    ensures w[d := v][lo..hi] == w[lo..hi]
  {
  }
}

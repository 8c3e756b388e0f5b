/**
 * The trace grid of the chart (plotly_csv_smb.py lines 77-128): with N dates and
 * C columns there are N*C traces, trace d*C + c plotting column c of date d, and
 * every selector button carries a visibility vector over all N*C traces.
 */
module Grid {

  /** The trace of date d and column c, when there are C columns (lines 104 and 121). */
  function TraceIndex(d: nat, c: nat, C: nat): (k: nat)
    ensures c < C ==> InDate(k, d, C)
    ensures c <= k
  {
    d * C + c
  }

  lemma {:induction false} MulMono(a: nat, b: nat, C: nat)
    requires a <= b
    ensures a * C <= b * C
  {
    if a < b {
      MulMono(a, b - 1, C);
      assert b * C == (b - 1) * C + C;
    }
  }

  /** Every grid position is a trace of the figure. */
  lemma IndexInRange(d: nat, c: nat, N: nat, C: nat)
    requires d < N && c < C
    ensures TraceIndex(d, c, C) < N * C
    ensures TraceIndex(d, c, C) + (C - c) <= N * C
  {
    MulMono(d + 1, N, C);
    assert (d + 1) * C == d * C + C;
  }

  /** A trace index gives back its date and its column. */
  lemma IndexDecode(d: nat, c: nat, C: nat)
    requires c < C
    ensures TraceIndex(d, c, C) / C == d && TraceIndex(d, c, C) % C == c
  {
    var k := TraceIndex(d, c, C);
    var q, r := k / C, k % C;
    assert k == q * C + r;
    assert (d + 1) * C == d * C + C && (q + 1) * C == q * C + C;
    if q > d {
      MulMono(d + 1, q, C);
      assert false;
    } else if q < d {
      MulMono(q + 1, d, C);
      assert false;
    }
  }

  /** Every trace index is a grid position: the index map is onto [0, N*C). */
  lemma IndexCover(k: nat, N: nat, C: nat)
    requires k < N * C
    ensures C > 0 && k / C < N && k % C < C
    ensures TraceIndex(k / C, k % C, C) == k
  {
    var q := k / C;
    if q >= N {
      MulMono(N, q, C);
    }
  }

  /** (d, c) |-> d*C + c is a bijection from [0, N) x [0, C) onto [0, N*C). */
  lemma IndexBijection(N: nat, C: nat)
    ensures forall d, c :: 0 <= d < N && 0 <= c < C ==>
      TraceIndex(d, c, C) < N * C && TraceIndex(d, c, C) / C == d && TraceIndex(d, c, C) % C == c
    ensures forall k :: 0 <= k < N * C ==> TraceIndex(k / C, k % C, C) == k && k / C < N && k % C < C
  {
    forall d, c | 0 <= d < N && 0 <= c < C
      ensures TraceIndex(d, c, C) < N * C && TraceIndex(d, c, C) / C == d && TraceIndex(d, c, C) % C == c
    {
      IndexInRange(d, c, N, C);
      IndexDecode(d, c, C);
    }
    forall k | 0 <= k < N * C ensures TraceIndex(k / C, k % C, C) == k && k / C < N && k % C < C {
      IndexCover(k, N, C);
    }
  }

  /** Only the first trace is shown at first (lines 86 and 94-95). */
  function InitialMask(T: nat): (r: seq<bool>)
    ensures |r| == T
  {
    seq(T, k => k == 0)
  }

  /** Exactly one trace is shown at first, unless there are none. */
  lemma InitialMaskCount(T: nat)
    ensures CountTrue(InitialMask(T)) == if T == 0 then 0 else 1
  {
    if T > 0 {
      CountInterval(T, 0, 1);
      assert InitialMask(T) == seq(T, k => 0 <= k < 1);
    }
  }

  /** Trace k is one of the C traces of date d. */
  predicate InDate(k: int, d: nat, C: nat)
  {
    d * C <= k < d * C + C
  }

  /** Trace k plots column c. */
  predicate InColumn(k: int, c: nat, C: nat)
  {
    C > 0 && k % C == c
  }

  /** The visibility vector of date button d: the C traces of date d. */
  function DateMask(N: nat, C: nat, d: nat): (r: seq<bool>)
    ensures |r| == N * C
  {
    seq(N * C, k => InDate(k, d, C))
  }

  /** The visibility vector of column button c: column c of every date. */
  function ColumnMask(N: nat, C: nat, c: nat): (r: seq<bool>)
    ensures |r| == N * C
  {
    seq(N * C, k => InColumn(k, c, C))
  }

  /** The number of true entries. */
  function CountTrue(s: seq<bool>): (n: nat)
    ensures n <= |s|
  {
    if s == [] then 0 else CountTrue(s[..|s| - 1]) + (if s[|s| - 1] then 1 else 0)
  }

  lemma {:induction false} CountTrueAppend(a: seq<bool>, b: seq<bool>)
    ensures CountTrue(a + b) == CountTrue(a) + CountTrue(b)
  {
    if b != [] {
      CountTrueAppend(a, b[..|b| - 1]);
      assert (a + b)[..|a + b| - 1] == a + b[..|b| - 1];
    } else {
      assert a + b == a;
    }
  }

  /** A vector that is true exactly on [lo, hi) has hi - lo true entries. */
  lemma {:induction false} CountInterval(n: nat, lo: nat, hi: nat)
    requires lo <= hi <= n
    ensures CountTrue(seq(n, k => lo <= k < hi)) == hi - lo
  {
    if n > 0 {
      var s := seq(n, k => lo <= k < hi);
      if hi == n {
        if lo < hi {
          CountInterval(n - 1, lo, hi - 1);
          assert s[..n - 1] == seq(n - 1, k => lo <= k < hi - 1);
        } else {
          CountInterval(n - 1, lo - 1, hi - 1);
          assert s[..n - 1] == seq(n - 1, k => lo - 1 <= k < hi - 1);
        }
      } else {
        CountInterval(n - 1, lo, hi);
        assert s[..n - 1] == seq(n - 1, k => lo <= k < hi);
      }
    }
  }

  /** Trace k belongs to date k / C. */
  lemma InDateBlock(k: nat, N: nat, C: nat, d: nat)
    requires k < N * C
    ensures d * C <= k < d * C + C <==> k / C == d
  {
    IndexCover(k, N, C);
    var q := k / C;
    assert (d + 1) * C == d * C + C && (q + 1) * C == q * C + C;
    if q < d && d * C <= k {
      MulMono(q + 1, d, C);
      assert false;
    } else if q > d && k < d * C + C {
      MulMono(d + 1, q, C);
      assert false;
    }
  }

  /** Date button d of N shows exactly the traces of date d: k / C == d. */
  lemma DateMaskDates(N: nat, C: nat, d: nat)
    ensures |DateMask(N, C, d)| == N * C
    ensures forall k :: 0 <= k < N * C ==> (DateMask(N, C, d)[k] <==> k / C == d)
  {
    forall k | 0 <= k < N * C ensures DateMask(N, C, d)[k] <==> k / C == d {
      InDateBlock(k, N, C, d);
    }
  }

  /** In grid coordinates, trace (d', c) belongs to date d iff d' == d. */
  lemma InDateAt(d': nat, c: nat, C: nat, d: nat)
    requires c < C
    ensures InDate(TraceIndex(d', c, C), d, C) <==> d' == d
  {
    IndexDecode(d', c, C);
    assert (d' + 1) * C == d' * C + C;
    InDateBlock(TraceIndex(d', c, C), d' + 1, C, d);
  }

  /** Date button d shows C traces, d*C .. d*C + C - 1. */
  lemma DateMaskCount(N: nat, C: nat, d: nat)
    requires d < N
    ensures CountTrue(DateMask(N, C, d)) == C
  {
    MulMono(d + 1, N, C);
    assert (d + 1) * C == d * C + C;
    CountInterval(N * C, d * C, d * C + C);
    assert DateMask(N, C, d) == seq(N * C, k => d * C <= k < d * C + C);
  }

  /** In grid coordinates, trace (d, c') plots column c iff c' == c. */
  lemma InColumnAt(d: nat, c': nat, C: nat, c: nat)
    requires c' < C
    ensures InColumn(TraceIndex(d, c', C), c, C) <==> c' == c
  {
    IndexDecode(d, c', C);
  }

  /** Column button c shows N traces, one per date. */
  lemma {:induction false} ColumnMaskCount(N: nat, C: nat, c: nat)
    requires c < C
    ensures CountTrue(ColumnMask(N, C, c)) == N
  {
    if N == 0 {
      assert ColumnMask(N, C, c) == [];
    } else {
      var m := (N - 1) * C;
      assert N * C == m + C;
      ColumnMaskCount(N - 1, C, c);
      var prev := ColumnMask(N - 1, C, c);
      var block := seq(C, j => c <= j < c + 1);
      var all := ColumnMask(N, C, c);
      assert |all| == |prev + block|;
      forall i | 0 <= i < |all| ensures all[i] == (prev + block)[i] {
        if i >= m {
          IndexDecode(N - 1, i - m, C);
          assert TraceIndex(N - 1, i - m, C) == i;
        }
      }
      assert all == prev + block;
      CountTrueAppend(prev, block);
      CountInterval(C, c, c + 1);
    }
  }

  /** Date button d and column button c have exactly one trace in common: d*C + c. */
  lemma MasksMeetOnce(N: nat, C: nat, d: nat, c: nat)
    requires d < N && c < C
    ensures forall k :: 0 <= k < N * C ==>
      (DateMask(N, C, d)[k] && ColumnMask(N, C, c)[k] <==> k == TraceIndex(d, c, C))
  {
    DateMaskDates(N, C, d);
    forall k | 0 <= k < N * C
      ensures DateMask(N, C, d)[k] && ColumnMask(N, C, c)[k] <==> k == TraceIndex(d, c, C)
    {
      IndexCover(k, N, C);
      IndexDecode(d, c, C);
    }
  }

  /** Each trace is shown by exactly one date button and by exactly one column button. */
  lemma MasksPartition(N: nat, C: nat)
    ensures forall k :: 0 <= k < N * C ==>
      && k / C < N && DateMask(N, C, k / C)[k]
      && (forall d :: 0 <= d < N && DateMask(N, C, d)[k] ==> d == k / C)
    ensures forall k :: 0 <= k < N * C ==>
      && k % C < C && ColumnMask(N, C, k % C)[k]
      && (forall c :: 0 <= c < C && ColumnMask(N, C, c)[k] ==> c == k % C)
  {
    forall k | 0 <= k < N * C ensures k / C < N && k % C < C {
      IndexCover(k, N, C);
    }
    forall d | 0 <= d < N ensures forall k :: 0 <= k < N * C ==> (DateMask(N, C, d)[k] <==> k / C == d) {
      DateMaskDates(N, C, d);
    }
    forall k | 0 <= k < N * C ensures DateMask(N, C, k / C)[k] {
      DateMaskDates(N, C, k / C);
    }
  }

}

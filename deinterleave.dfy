/** Reshaping the flat reading array returned by `:FETC?` / `:TRACE:DATA?`
    into per-channel sequences (numpy slices `y[k::m]`), the inverse
    interleaving, and the column-to-row transpose written by `write_csv`. */
module Deinterleave {
  import opened Wrappers

  /** The slice `s[start::step]`: every step-th element from start on. */
  function Strided(s: seq<real>, start: nat, step: nat): seq<real>
    requires step > 0
    decreases |s| - start
  {
    if start >= |s| then [] else [s[start]] + Strided(s, start + step, step)
  }

  /** `s[start::2]` has len(range(start, |s|, 2)) elements, the ones at
      start, start + 2, start + 4, ... */
  lemma {:induction false} StridedBy2(s: seq<real>, start: nat)
    ensures |Strided(s, start, 2)| == if start >= |s| then 0 else (|s| - start + 1) / 2
    ensures forall j :: 0 <= j < |Strided(s, start, 2)| ==> start + 2 * j < |s| && Strided(s, start, 2)[j] == s[start + 2 * j]
    decreases |s| - start
  {
    if start < |s| {
      StridedBy2(s, start + 2);
    }
  }

  /** `s[start::3]` has len(range(start, |s|, 3)) elements, the ones at
      start, start + 3, start + 6, ... */
  lemma {:induction false} StridedBy3(s: seq<real>, start: nat)
    ensures |Strided(s, start, 3)| == if start >= |s| then 0 else (|s| - start + 2) / 3
    ensures forall j :: 0 <= j < |Strided(s, start, 3)| ==> start + 3 * j < |s| && Strided(s, start, 3)[j] == s[start + 3 * j]
    decreases |s| - start
  {
    if start < |s| {
      StridedBy3(s, start + 3);
    }
  }

  /** Stride-2 split: (current, voltage), or (current, time) for the CVT. */
  function Split2(y: seq<real>): (seq<real>, seq<real>)
  {
    (Strided(y, 0, 2), Strided(y, 1, 2))
  }

  /** Stride-3 split: (current, temperature, voltage). */
  function Split3(y: seq<real>): (seq<real>, seq<real>, seq<real>)
  {
    (Strided(y, 0, 3), Strided(y, 1, 3), Strided(y, 2, 3))
  }

  /** The flat device order for two channels: a0, b0, a1, b1, ... */
  function Interleave2(a: seq<real>, b: seq<real>): (y: seq<real>)
    requires |a| == |b|
    ensures |y| == 2 * |a|
    ensures forall i :: 0 <= i < |a| ==> y[2 * i] == a[i] && y[2 * i + 1] == b[i]
  {
    if a == [] then [] else [a[0], b[0]] + Interleave2(a[1..], b[1..])
  }

  /** The flat device order for three channels: a0, b0, c0, a1, ... */
  function Interleave3(a: seq<real>, b: seq<real>, c: seq<real>): (y: seq<real>)
    requires |a| == |b| == |c|
    ensures |y| == 3 * |a|
    ensures forall i :: 0 <= i < |a| ==> y[3 * i] == a[i] && y[3 * i + 1] == b[i] && y[3 * i + 2] == c[i]
  {
    if a == [] then [] else [a[0], b[0], c[0]] + Interleave3(a[1..], b[1..], c[1..])
  }

  /** Splitting by two gives the even-index and odd-index elements, of
      length ceil(|y|/2) and floor(|y|/2). */
  lemma Split2Layout(y: seq<real>)
    ensures |Split2(y).0| == (|y| + 1) / 2 && |Split2(y).1| == |y| / 2
    ensures forall i :: 0 <= i < |Split2(y).0| ==> Split2(y).0[i] == y[2 * i]
    ensures forall i :: 0 <= i < |Split2(y).1| ==> Split2(y).1[i] == y[2 * i + 1]
  {
    StridedBy2(y, 0);
    StridedBy2(y, 1);
  }

  /** Splitting by three gives the elements at indices 0, 1, 2 (mod 3). */
  lemma Split3Layout(y: seq<real>)
    ensures |Split3(y).0| == (|y| + 2) / 3 && |Split3(y).1| == (|y| + 1) / 3 && |Split3(y).2| == |y| / 3
    ensures forall i :: 0 <= i < |Split3(y).0| ==> Split3(y).0[i] == y[3 * i]
    ensures forall i :: 0 <= i < |Split3(y).1| ==> Split3(y).1[i] == y[3 * i + 1]
    ensures forall i :: 0 <= i < |Split3(y).2| ==> Split3(y).2[i] == y[3 * i + 2]
  {
    StridedBy3(y, 0);
    StridedBy3(y, 1);
    StridedBy3(y, 2);
  }

  /** Two sequences of length 2n that agree at every 2i and 2i + 1 are equal. */
  lemma EqualByPairs(z: seq<real>, y: seq<real>, n: nat)
    requires |z| == |y| == 2 * n
    requires forall i :: 0 <= i < n ==> z[2 * i] == y[2 * i] && z[2 * i + 1] == y[2 * i + 1]
    ensures z == y
  {
    forall k | 0 <= k < |y| ensures z[k] == y[k] {
      var i := k / 2;
      assert k == 2 * i || k == 2 * i + 1;
    }
  }

  /** Two sequences of length 3n that agree at every 3i, 3i + 1 and 3i + 2
      are equal. */
  lemma EqualByTriples(z: seq<real>, y: seq<real>, n: nat)
    requires |z| == |y| == 3 * n
    requires forall i :: 0 <= i < n ==> z[3 * i] == y[3 * i] && z[3 * i + 1] == y[3 * i + 1] && z[3 * i + 2] == y[3 * i + 2]
    ensures z == y
  {
    forall k | 0 <= k < |y| ensures z[k] == y[k] {
      var i := k / 3;
      assert k == 3 * i || k == 3 * i + 1 || k == 3 * i + 2;
    }
  }

  /** A flat array of 2n readings splits into two channels of n, and
      interleaving them again gives back the array. */
  lemma Split2RoundTrip(y: seq<real>, n: nat)
    requires |y| == 2 * n
    ensures |Split2(y).0| == n && |Split2(y).1| == n
    ensures Interleave2(Split2(y).0, Split2(y).1) == y
  {
    Split2Layout(y);
    var (a, b) := Split2(y);
    assert (2 * n + 1) / 2 == n && (2 * n) / 2 == n;
    var z := Interleave2(a, b);
    forall i | 0 <= i < n
      ensures z[2 * i] == y[2 * i] && z[2 * i + 1] == y[2 * i + 1]
    {
      assert z[2 * i] == a[i] && z[2 * i + 1] == b[i];
    }
    EqualByPairs(z, y, n);
  }

  /** Interleaving two equal-length channels and splitting gives them back. */
  lemma Interleave2RoundTrip(a: seq<real>, b: seq<real>)
    requires |a| == |b|
    ensures Split2(Interleave2(a, b)) == (a, b)
  {
    var y := Interleave2(a, b);
    Split2Layout(y);
    var (c, d) := Split2(y);
    assert |c| == |a| && |d| == |b|;
    assert c == a;
    assert d == b;
  }

  /** A flat array of 3n readings splits into three channels of n, and
      interleaving them again gives back the array. */
  lemma Split3RoundTrip(y: seq<real>, n: nat)
    requires |y| == 3 * n
    ensures |Split3(y).0| == n && |Split3(y).1| == n && |Split3(y).2| == n
    ensures Interleave3(Split3(y).0, Split3(y).1, Split3(y).2) == y
  {
    Split3Layout(y);
    var (a, b, c) := Split3(y);
    assert (3 * n + 2) / 3 == n && (3 * n + 1) / 3 == n && (3 * n) / 3 == n;
    var z := Interleave3(a, b, c);
    forall i | 0 <= i < n
      ensures z[3 * i] == y[3 * i] && z[3 * i + 1] == y[3 * i + 1] && z[3 * i + 2] == y[3 * i + 2]
    {
      assert z[3 * i] == a[i] && z[3 * i + 1] == b[i] && z[3 * i + 2] == c[i];
    }
    EqualByTriples(z, y, n);
  }

  /** Interleaving three equal-length channels and splitting gives them back. */
  lemma Interleave3RoundTrip(a: seq<real>, b: seq<real>, c: seq<real>)
    requires |a| == |b| == |c|
    ensures Split3(Interleave3(a, b, c)) == (a, b, c)
  {
    var y := Interleave3(a, b, c);
    Split3Layout(y);
    var (d, e, f) := Split3(y);
    assert |d| == |a| && |e| == |b| && |f| == |c|;
    assert d == a;
    assert e == b;
    assert f == c;
  }

  predicate SameLength(cols: seq<seq<real>>)
  {
    forall j :: 0 <= j < |cols| ==> |cols[j]| == |cols[0]|
  }

  /** `np.array(cols).transpose()`: one row per sample, one column per
      channel, in the order given. Columns of different lengths make numpy
      raise (a ragged array), which is None here. */
  function CsvTable(cols: seq<seq<real>>): (t: Option<seq<seq<real>>>)
    requires |cols| > 0
    ensures t.Some? <==> SameLength(cols)
    ensures t.Some? ==> |t.value| == |cols[0]|
    ensures t.Some? ==> forall i :: 0 <= i < |t.value| ==> |t.value[i]| == |cols|
    ensures t.Some? ==> forall i, j :: 0 <= i < |t.value| && 0 <= j < |cols| ==> t.value[i][j] == cols[j][i]
  {
    if SameLength(cols) then
      Some(seq(|cols[0]|, i requires 0 <= i < |cols[0]| => seq(|cols|, j requires 0 <= j < |cols| => cols[j][i])))
    else None
  }
}

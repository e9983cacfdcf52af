/** The current-versus-time controller of kiv/cvt.py. For each test voltage
    in turn it reads a flat (current, time) array from the device and files
    the currents and the re-based times in two maps keyed by voltage; its
    plot step normalises each current series and scales the voltages into
    colour indices. The device readings are a parameter of BeginRuns. */
module Cvt {
  import opened Wrappers
  import opened Deinterleave

  /** Times shifted so that the first sample is at 0. */
  function Rebase(t: seq<real>): (r: seq<real>)
    requires |t| > 0
    ensures |r| == |t| && r[0] == 0.0
    ensures forall j, k :: 0 <= j < |t| && 0 <= k < |t| ==> r[j] - r[k] == t[j] - t[k]
  {
    seq(|t|, j requires 0 <= j < |t| => t[j] - t[0])
  }

  /** The current channel of one CVT reading: `yvalues[0::2]`. */
  function CurrentsOf(y: seq<real>): seq<real>
  {
    Strided(y, 0, 2)
  }

  /** The time channel of one CVT reading: `yvalues[1::2] - yvalues[1]`. */
  function TimesOf(y: seq<real>): seq<real>
    requires |y| >= 2
  {
    StridedBy2(y, 1);
    Rebase(Strided(y, 1, 2))
  }

  /** Each recorded time is the device time minus the first device time, so
      the series starts at 0 and keeps every time difference; an even-length
      reading yields as many times as currents. */
  lemma ReadingLayout(y: seq<real>)
    requires |y| >= 2
    ensures |TimesOf(y)| == |y| / 2 && |CurrentsOf(y)| == (|y| + 1) / 2 >= 1
    ensures TimesOf(y)[0] == 0.0
    ensures forall j :: 0 <= j < |TimesOf(y)| ==> TimesOf(y)[j] == y[2 * j + 1] - y[1]
    ensures forall j, k :: 0 <= j < |TimesOf(y)| && 0 <= k < |TimesOf(y)| ==>
              TimesOf(y)[j] - TimesOf(y)[k] == y[2 * j + 1] - y[2 * k + 1]
    ensures forall j :: 0 <= j < |CurrentsOf(y)| ==> CurrentsOf(y)[j] == y[2 * j]
    ensures |y| % 2 == 0 ==> |TimesOf(y)| == |CurrentsOf(y)|
  {
    StridedBy2(y, 0);
    StridedBy2(y, 1);
  }

  /** The time series of every reading, in order. */
  function AllTimes(readings: seq<seq<real>>): seq<seq<real>>
    requires forall i :: 0 <= i < |readings| ==> |readings[i]| >= 2
  {
    seq(|readings|, i requires 0 <= i < |readings| && |readings[i]| >= 2 => TimesOf(readings[i]))
  }

  /** The current series of every reading, in order. */
  function AllCurrents(readings: seq<seq<real>>): seq<seq<real>>
  {
    seq(|readings|, i requires 0 <= i < |readings| => CurrentsOf(readings[i]))
  }

  /** The dictionary after `d[keys[0]] = vals[0]; d[keys[1]] = vals[1]; ...`. */
  function Record<V>(m: map<real, V>, keys: seq<real>, vals: seq<V>): map<real, V>
    requires |keys| == |vals|
    decreases |keys|
  {
    if |keys| == 0 then m
    else Record(m, keys[..|keys| - 1], vals[..|vals| - 1])[keys[|keys| - 1] := vals[|vals| - 1]]
  }

  /** One more assignment extends the record by one key. */
  lemma RecordStep<V>(m: map<real, V>, keys: seq<real>, vals: seq<V>, i: nat)
    requires |keys| == |vals| && i < |keys|
    ensures Record(m, keys[..i + 1], vals[..i + 1]) == Record(m, keys[..i], vals[..i])[keys[i] := vals[i]]
  {
    assert keys[..i + 1][..i] == keys[..i] && vals[..i + 1][..i] == vals[..i];
  }

  /** No later position of keys repeats keys[i]. */
  predicate IsLastOccurrence(keys: seq<real>, i: nat)
  {
    i < |keys| && forall j :: i < j < |keys| ==> keys[j] != keys[i]
  }

  /** Recording adds exactly the listed keys. */
  lemma {:induction false} RecordKeys<V>(m: map<real, V>, keys: seq<real>, vals: seq<V>)
    requires |keys| == |vals|
    ensures Record(m, keys, vals).Keys == m.Keys + set v | v in keys
    decreases |keys|
  {
    if |keys| > 0 {
      var n := |keys| - 1;
      RecordKeys(m, keys[..n], vals[..n]);
      assert keys == keys[..n] + [keys[n]];
      assert (set v | v in keys) == (set v | v in keys[..n]) + {keys[n]};
    }
  }

  /** A key's entry is the value given with its last occurrence: a later
      duplicate voltage overwrites an earlier one. */
  lemma {:induction false} RecordLatest<V>(m: map<real, V>, keys: seq<real>, vals: seq<V>, i: nat)
    requires |keys| == |vals| && IsLastOccurrence(keys, i)
    ensures keys[i] in Record(m, keys, vals) && Record(m, keys, vals)[keys[i]] == vals[i]
    decreases |keys|
  {
    var n := |keys| - 1;
    if i < n {
      assert IsLastOccurrence(keys[..n], i);
      RecordLatest(m, keys[..n], vals[..n], i);
    }
  }

  /** Keys that are not listed keep their old entry. */
  lemma {:induction false} RecordOthers<V>(m: map<real, V>, keys: seq<real>, vals: seq<V>, k: real)
    requires |keys| == |vals| && k in m && k !in keys
    ensures k in Record(m, keys, vals) && Record(m, keys, vals)[k] == m[k]
    decreases |keys|
  {
    if |keys| > 0 {
      var n := |keys| - 1;
      assert k !in keys[..n];
      RecordOthers(m, keys[..n], vals[..n], k);
    }
  }

  /** `np.min` of a non-empty series. */
  function Min(s: seq<real>): (m: real)
    requires |s| > 0
    ensures forall i :: 0 <= i < |s| ==> m <= s[i]
  {
    if |s| == 1 then s[0]
    else
      var rest := Min(s[1..]);
      if s[0] <= rest then s[0] else rest
  }

  /** `np.max` of a non-empty series. */
  function Max(s: seq<real>): (m: real)
    requires |s| > 0
    ensures forall i :: 0 <= i < |s| ==> s[i] <= m
  {
    if |s| == 1 then s[0]
    else
      var rest := Max(s[1..]);
      if rest <= s[0] then s[0] else rest
  }

  /** The minimum is one of the samples. */
  lemma {:induction false} MinAttained(s: seq<real>)
    requires |s| > 0
    ensures Min(s) in s
  {
    if |s| > 1 {
      MinAttained(s[1..]);
    }
  }

  /** The maximum is one of the samples. */
  lemma {:induction false} MaxAttained(s: seq<real>)
    requires |s| > 0
    ensures Max(s) in s
  {
    if |s| > 1 {
      MaxAttained(s[1..]);
    }
  }

  lemma QuotientInUnit(a: real, b: real)
    requires 0.0 <= a <= b && b > 0.0
    ensures 0.0 <= a / b <= 1.0
    ensures a == 0.0 ==> a / b == 0.0
    ensures a == b ==> a / b == 1.0
  {
    var q := a / b;
    assert q * b == a;
  }

  lemma QuotientMonotone(a: real, c: real, b: real)
    requires a <= c && b > 0.0
    ensures a / b <= c / b
  {
    var p, q := a / b, c / b;
    assert p * b == a && q * b == c;
  }

  /** Every sample moved to the scale where lo is 0 and lo + ptp is 1. */
  function ScaleAll(s: seq<real>, lo: real, ptp: real): (r: seq<real>)
    requires ptp != 0.0
    ensures |r| == |s|
  {
    seq(|s|, i requires 0 <= i < |s| => (s[i] - lo) / ptp)
  }

  /** Rescaling against given bounds lo and hi; None when they coincide. */
  function RescaleWith(s: seq<real>, lo: real, hi: real): (r: Option<seq<real>>)
    ensures r.Some? ==> |r.value| == |s|
  {
    if hi == lo then None else Some(ScaleAll(s, lo, hi - lo))
  }

  /** On samples between lo and hi, scaling lands in [0, 1], sends the two
      ends to 0 and 1, and keeps the order. */
  lemma RescaleWithAt(s: seq<real>, lo: real, hi: real, i: nat, j: nat)
    requires lo < hi && i < |s| && j < |s| && lo <= s[i] <= hi
    ensures 0.0 <= RescaleWith(s, lo, hi).value[i] <= 1.0
    ensures s[i] == lo ==> RescaleWith(s, lo, hi).value[i] == 0.0
    ensures s[i] == hi ==> RescaleWith(s, lo, hi).value[i] == 1.0
    ensures s[i] <= s[j] ==> RescaleWith(s, lo, hi).value[i] <= RescaleWith(s, lo, hi).value[j]
  {
    var r := RescaleWith(s, lo, hi).value;
    assert r[i] == (s[i] - lo) / (hi - lo) && r[j] == (s[j] - lo) / (hi - lo);
    QuotientInUnit(s[i] - lo, hi - lo);
    if s[i] <= s[j] {
      QuotientMonotone(s[i] - lo, s[j] - lo, hi - lo);
    }
  }

  /** `(s - np.min(s)) / np.ptp(s)`. A constant series has ptp 0 and numpy
      fills the result with NaN; that case is None. */
  function Rescale(s: seq<real>): (r: Option<seq<real>>)
    requires |s| > 0
    ensures r.Some? ==> |r.value| == |s|
  {
    RescaleWith(s, Min(s), Max(s))
  }

  /** Rescaling is defined exactly for non-constant series. */
  lemma RescaleDefined(s: seq<real>)
    requires |s| > 0
    ensures Rescale(s).Some? <==> exists i, j :: 0 <= i < |s| && 0 <= j < |s| && s[i] != s[j]
  {
    MinAttained(s);
    MaxAttained(s);
    if Max(s) != Min(s) {
      var i :| 0 <= i < |s| && s[i] == Min(s);
      var j :| 0 <= j < |s| && s[j] == Max(s);
      assert s[i] != s[j];
    }
  }

  /** The rescaled series lies in [0, 1], sends every minimum to 0 and
      every maximum to 1, and keeps the order of the samples. */
  lemma RescaleBounds(s: seq<real>, i: nat, j: nat)
    requires |s| > 0 && Rescale(s).Some? && i < |s| && j < |s|
    ensures 0.0 <= Rescale(s).value[i] <= 1.0
    ensures s[i] == Min(s) ==> Rescale(s).value[i] == 0.0
    ensures s[i] == Max(s) ==> Rescale(s).value[i] == 1.0
    ensures s[i] <= s[j] ==> Rescale(s).value[i] <= Rescale(s).value[j]
  {
    assert Min(s) <= s[0] <= Max(s);
    RescaleWithAt(s, Min(s), Max(s), i, j);
  }

  /** The per-voltage normalisation of `plot`: rising from 0 to 1 for a
      non-negative test voltage, inverted (`1 - x`) for a negative one. */
  function Normalize(s: seq<real>, volt: real): (r: Option<seq<real>>)
    requires |s| > 0
    ensures r.Some? <==> Rescale(s).Some?
    ensures r.Some? ==> |r.value| == |s|
  {
    match Rescale(s)
    case None => None
    case Some(x) =>
      if volt < 0.0 then Some(seq(|x|, i requires 0 <= i < |x| => 1.0 - x[i])) else Some(x)
  }

  /** Normalised values lie in [0, 1]. For volt >= 0 the minimum maps to 0
      and the maximum to 1; for volt < 0 the minimum maps to 1 and the
      maximum to 0. Both ends are reached. */
  lemma NormalizeRange(s: seq<real>, volt: real)
    requires |s| > 0 && Normalize(s, volt).Some?
    ensures forall i :: 0 <= i < |s| ==> 0.0 <= Normalize(s, volt).value[i] <= 1.0
    ensures forall i :: 0 <= i < |s| && s[i] == Min(s) ==>
              Normalize(s, volt).value[i] == if volt < 0.0 then 1.0 else 0.0
    ensures forall i :: 0 <= i < |s| && s[i] == Max(s) ==>
              Normalize(s, volt).value[i] == if volt < 0.0 then 0.0 else 1.0
    ensures exists i :: 0 <= i < |s| && Normalize(s, volt).value[i] == 0.0
    ensures exists i :: 0 <= i < |s| && Normalize(s, volt).value[i] == 1.0
  {
    var r := Normalize(s, volt).value;
    forall i | 0 <= i < |s|
      ensures 0.0 <= r[i] <= 1.0
      ensures s[i] == Min(s) ==> r[i] == if volt < 0.0 then 1.0 else 0.0
      ensures s[i] == Max(s) ==> r[i] == if volt < 0.0 then 0.0 else 1.0
    {
      RescaleBounds(s, i, i);
    }
    MinAttained(s);
    MaxAttained(s);
    var lo :| 0 <= lo < |s| && s[lo] == Min(s);
    var hi :| 0 <= hi < |s| && s[hi] == Max(s);
    if volt < 0.0 {
      assert r[hi] == 0.0 && r[lo] == 1.0;
    } else {
      assert r[lo] == 0.0 && r[hi] == 1.0;
    }
  }

  /** The normalised series preserves the order of the currents for a
      non-negative test voltage and reverses it for a negative one. */
  lemma NormalizeOrder(s: seq<real>, volt: real, i: nat, j: nat)
    requires |s| > 0 && Normalize(s, volt).Some? && i < |s| && j < |s| && s[i] <= s[j]
    ensures volt >= 0.0 ==> Normalize(s, volt).value[i] <= Normalize(s, volt).value[j]
    ensures volt < 0.0 ==> Normalize(s, volt).value[i] >= Normalize(s, volt).value[j]
  {
    RescaleBounds(s, i, j);
  }

  /** `clist` of `plot`: one colour index in [0, 1] per test voltage. */
  lemma ColourListRange(volts: seq<real>)
    requires |volts| > 0 && Rescale(volts).Some?
    ensures |Rescale(volts).value| == |volts|
    ensures forall i :: 0 <= i < |volts| ==> 0.0 <= Rescale(volts).value[i] <= 1.0
  {
    forall i | 0 <= i < |volts| ensures 0.0 <= Rescale(volts).value[i] <= 1.0 {
      RescaleBounds(volts, i, i);
    }
  }

  class Keithley6487CVT {
    const nval: nat
    const volts: seq<real>
    const nplc: real
    const delay: real
    var times: map<real, seq<real>>
    var curr: map<real, seq<real>>
    var yvalues: seq<real>
    var normalized: map<real, Option<seq<real>>>

    /** The settling delay is the one given (the source overwrites it with 2). */
    constructor (nval: nat, volts: seq<real>, nplc: real, delay: real := 2.0)
      ensures this.nval == nval && this.volts == volts && this.nplc == nplc && this.delay == delay
      ensures times == map[] && curr == map[] && yvalues == [] && normalized == map[]
    {
      this.nval := nval;
      this.volts := volts;
      this.nplc := nplc;
      this.delay := delay;
      times := map[];
      curr := map[];
      yvalues := [];
      normalized := map[];
    }

    /** `begin_runs`: readings[i] is what the device returns while volts[i]
        is applied. Each reading must hold at least one (current, time)
        pair, since the source indexes `yvalues[1]`. */
    method BeginRuns(readings: seq<seq<real>>)
      requires |readings| == |volts|
      requires forall i :: 0 <= i < |readings| ==> |readings[i]| >= 2
      modifies this`times, this`curr, this`yvalues
      ensures times == Record(old(times), volts, AllTimes(readings))
      ensures curr == Record(old(curr), volts, AllCurrents(readings))
      ensures times.Keys == old(times.Keys) + set v | v in volts
      ensures curr.Keys == old(curr.Keys) + set v | v in volts
      ensures forall i: nat :: IsLastOccurrence(volts, i) ==>
                times[volts[i]] == TimesOf(readings[i]) && curr[volts[i]] == CurrentsOf(readings[i])
      ensures forall v :: v in volts ==> |curr[v]| >= 1 && |times[v]| >= 1 && times[v][0] == 0.0
      ensures |volts| > 0 ==> yvalues == readings[|volts| - 1]
      ensures |volts| == 0 ==> yvalues == old(yvalues)
    {
      ghost var times0, curr0 := times, curr;
      ghost var ts, cs := AllTimes(readings), AllCurrents(readings);
      for i := 0 to |volts|
        invariant times == Record(times0, volts[..i], ts[..i])
        invariant curr == Record(curr0, volts[..i], cs[..i])
        invariant i > 0 ==> yvalues == readings[i - 1]
        invariant i == 0 ==> yvalues == old(yvalues)
      {
        var v := volts[i];
        yvalues := readings[i];
        times := times[v := TimesOf(yvalues)];
        curr := curr[v := CurrentsOf(yvalues)];
        assert ts[i] == TimesOf(yvalues) && cs[i] == CurrentsOf(yvalues);
        RecordStep(times0, volts, ts, i);
        RecordStep(curr0, volts, cs, i);
      }
      assert volts[..|volts|] == volts && ts[..|ts|] == ts && cs[..|cs|] == cs;
      RunOutcome(times0, curr0, volts, readings);
    }

    /** The normalisation and colour-index part of `plot` (the drawing
        itself is not modelled). Every test voltage must have a non-empty
        current series, as `self.curr[volt]` and `np.min` demand; an empty
        voltage list makes `np.min(volts)` raise. */
    method Plot(normalize: bool := true) returns (clist: Option<seq<real>>)
      requires |volts| > 0
      requires normalize ==> forall v :: v in volts ==> v in curr && |curr[v]| > 0
      modifies this`normalized
      ensures normalize ==> normalized.Keys == set v | v in volts
      ensures normalize ==> forall v :: v in volts ==> normalized[v] == Normalize(curr[v], v)
      ensures !normalize ==> normalized == old(normalized)
      ensures clist == Rescale(volts)
    {
      if normalize {
        normalized := map[];
        for i := 0 to |volts|
          invariant normalized.Keys == set v | v in volts[..i]
          invariant forall v :: v in normalized ==> normalized[v] == Normalize(curr[v], v)
        {
          var volt := volts[i];
          normalized := normalized[volt := Normalize(curr[volt], volt)];
          assert volts[..i + 1] == volts[..i] + [volt];
        }
        assert volts[..|volts|] == volts;
      }
      clist := Rescale(volts);
    }

    /** `write_csv`: rows of (time, current) for one voltage; a voltage
        that was not measured raises KeyError, which is None here. */
    method WriteCsv(volt: real) returns (table: Option<seq<seq<real>>>)
      ensures volt !in times || volt !in curr ==> table.None?
      ensures volt in times && volt in curr ==> (table.Some? <==> |times[volt]| == |curr[volt]|)
      ensures table.Some? ==> volt in times && volt in curr && |table.value| == |times[volt]|
      ensures table.Some? ==> forall i :: 0 <= i < |table.value| ==> table.value[i] == [times[volt][i], curr[volt][i]]
    {
      if volt in times && volt in curr {
        var t, c := times[volt], curr[volt];
        assert [t, c][0] == t && [t, c][1] == c;
        table := CsvTable([t, c]);
        if table.Some? {
          forall i | 0 <= i < |table.value| ensures table.value[i] == [t[i], c[i]] {
            assert table.value[i][0] == t[i] && table.value[i][1] == c[i];
          }
        }
      } else {
        table := None;
      }
    }
  }

  /** What a whole run files: the listed voltages become keys, each one
      holding the series of its last reading, with times starting at 0. */
  lemma RunOutcome(times0: map<real, seq<real>>, curr0: map<real, seq<real>>,
                   volts: seq<real>, readings: seq<seq<real>>)
    requires |readings| == |volts|
    requires forall i :: 0 <= i < |readings| ==> |readings[i]| >= 2
    ensures Record(times0, volts, AllTimes(readings)).Keys == times0.Keys + set v | v in volts
    ensures Record(curr0, volts, AllCurrents(readings)).Keys == curr0.Keys + set v | v in volts
    ensures forall i: nat :: IsLastOccurrence(volts, i) ==>
              Record(times0, volts, AllTimes(readings))[volts[i]] == TimesOf(readings[i]) &&
              Record(curr0, volts, AllCurrents(readings))[volts[i]] == CurrentsOf(readings[i])
    ensures forall v :: v in volts ==>
              |Record(curr0, volts, AllCurrents(readings))[v]| >= 1 &&
              |Record(times0, volts, AllTimes(readings))[v]| >= 1 &&
              Record(times0, volts, AllTimes(readings))[v][0] == 0.0
  {
    var ts, cs := AllTimes(readings), AllCurrents(readings);
    RecordKeys(times0, volts, ts);
    RecordKeys(curr0, volts, cs);
    forall i: nat | IsLastOccurrence(volts, i)
      ensures Record(times0, volts, ts)[volts[i]] == TimesOf(readings[i])
      ensures Record(curr0, volts, cs)[volts[i]] == CurrentsOf(readings[i])
    {
      RecordLatest(times0, volts, ts, i);
      RecordLatest(curr0, volts, cs, i);
    }
    forall v | v in volts
      ensures |Record(curr0, volts, cs)[v]| >= 1 && |Record(times0, volts, ts)[v]| >= 1
      ensures Record(times0, volts, ts)[v][0] == 0.0
    {
      var i := LastIndexOf(volts, v);
      RecordLatest(times0, volts, ts, i);
      RecordLatest(curr0, volts, cs, i);
      ReadingLayout(readings[i]);
    }
  }

  /** The position of the last occurrence of v in keys. */
  function LastIndexOf(keys: seq<real>, v: real): (i: nat)
    requires v in keys
    ensures IsLastOccurrence(keys, i) && keys[i] == v
    decreases |keys|
  {
    if keys[|keys| - 1] == v then |keys| - 1
    else
      assert v in keys[..|keys| - 1] by {
        var k :| 0 <= k < |keys| && keys[k] == v;
        assert keys[..|keys| - 1][k] == v;
      }
      LastIndexOf(keys[..|keys| - 1], v)
  }
}

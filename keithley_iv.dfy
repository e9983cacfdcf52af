/** The two IV-sweep controllers of kiv/Keithley_IV.py. Each object holds
    its sweep configuration (fixed at construction), the timeout it sets on
    the device, and the channels of the last run. The device itself is not
    modelled: the flat array a run reads back is a parameter of BeginRuns. */
module KeithleyIV {
  import opened Wrappers
  import opened Sweep
  import opened Format
  import opened Deinterleave

  /** Controller for the 6487: immediate-trigger sweep, stride-2 readings. */
  class Keithley6487IV {
    const start: real
    const stop: real
    const stepsize: real
    const delay: real
    const nplc: real
    const nsteps: nat
    var timeoutMs: real
    var yvalues: seq<real>
    var curr: seq<real>
    var vso: seq<real>
    /** Whether `begin_runs` has run: the source creates `yvalues`, `curr`
        and `vso` only there, so before it they do not exist. */
    ghost var measured: bool

    predicate Valid()
    {
      stepsize != 0.0 && nsteps == StepCount(start, stop, stepsize)
    }

    /** The stepsize is kept as given (the device takes its magnitude). A
        zero step divides by zero in the source, hence the requires. */
    constructor (start: real, stop: real, stepsize: real := 0.1, delay: real := 5.0, nplc: real := 1.0)
      requires stepsize != 0.0
      ensures Valid()
      ensures this.start == start && this.stop == stop && this.stepsize == stepsize
      ensures this.delay == delay && this.nplc == nplc
      ensures nsteps == StepCount(start, stop, stepsize)
      ensures timeoutMs == TimeoutMs(nsteps, delay, nplc)
      ensures yvalues == [] && curr == [] && vso == [] && !measured
    {
      this.start := start;
      this.stop := stop;
      this.stepsize := stepsize;
      this.delay := delay;
      this.nplc := nplc;
      this.nsteps := StepCount(start, stop, stepsize);
      yvalues, curr, vso := [], [], [];
      measured := false;
      new;
      Timeout();
    }

    /** `timeout()`: the read timeout given to the device, in milliseconds. */
    method Timeout()
      modifies this`timeoutMs
      ensures timeoutMs == TimeoutMs(nsteps, delay, nplc)
    {
      timeoutMs := TimeoutMs(nsteps, delay, nplc);
    }

    /** The `runtime` property, in seconds. */
    function Runtime(): (t: real)
      ensures 1000.0 * t + 5000.0 == TimeoutMs(nsteps, delay, nplc)
    {
      RuntimeSeconds(nsteps, delay, nplc)
    }

    /** `program_trig`: the trigger count sent is one trigger per sweep point. */
    method ProgramTrig() returns (count: nat)
      requires Valid()
      ensures count == nsteps && count >= 1
      ensures forall k: nat :: PointWithinRange(start, stop, stepsize, k) <==> k < count
    {
      count := nsteps;
      forall k: nat ensures PointWithinRange(start, stop, stepsize, k) <==> k < count {
        SweepPointsInRange(start, stop, stepsize, k);
      }
    }

    /** `begin_runs`: the flat readings are current, voltage, current, ... */
    method BeginRuns(reading: seq<real>)
      modifies this`yvalues, this`curr, this`vso, this`measured
      ensures measured
      ensures yvalues == reading && (curr, vso) == Split2(reading)
      ensures |reading| % 2 == 0 ==>
                |curr| == |vso| == |reading| / 2 && Interleave2(curr, vso) == reading
    {
      yvalues := reading;
      measured := true;
      curr := Strided(reading, 0, 2);
      vso := Strided(reading, 1, 2);
      if |reading| % 2 == 0 {
        Split2RoundTrip(reading, |reading| / 2);
      }
    }

    /** `write_csv`: rows of (voltage, current). */
    method WriteCsv() returns (table: Option<seq<seq<real>>>)
      requires measured
      ensures table.Some? <==> |vso| == |curr|
      ensures table.Some? ==> |table.value| == |vso|
      ensures table.Some? ==> forall i :: 0 <= i < |table.value| ==> table.value[i] == [vso[i], curr[i]]
    {
      assert [vso, curr][0] == vso && [vso, curr][1] == curr;
      table := CsvTable([vso, curr]);
      if table.Some? {
        forall i | 0 <= i < |table.value| ensures table.value[i] == [vso[i], curr[i]] {
          assert table.value[i][0] == vso[i] && table.value[i][1] == curr[i];
        }
      }
    }
  }

  /** Controller for the 6517B: built-in timed sweep, step sign corrected
      to the sweep direction, optional temperature channel. */
  class Keithley6517BIV {
    const start: real
    const stop: real
    const stepsize: real
    const delay: real
    const nplc: real
    const nsteps: nat
    const dataOut: string
    const dataCount: nat
    /** The constructor's `temperature` flag; the source keeps it only
        through `data_out`. */
    ghost const temperatureRequested: bool
    var timeoutMs: real
    var yvalues: seq<real>
    var curr: seq<real>
    var vso: seq<real>
    var temperature: seq<real>
    /** Whether `begin_runs` has run: the source creates the channel
        attributes only there (`temperature` only when it is reported). */
    ghost var measured: bool

    ghost predicate Valid()
    {
      && start != stop
      && stepsize != 0.0
      && (stepsize < 0.0 <==> start > stop)
      && nsteps == StepCount(start, stop, stepsize)
      && dataOut == DataOut(temperatureRequested)
      && dataCount == ElementCount(dataOut)
    }

    /** The if/elif chain covers every input with start != stop and a
        non-zero step; for any other input the source leaves `self.stepsize`
        unset (or divides by zero) and fails, hence the requires. The
        element count is taken from `data_out`, as line 219 intends. */
    constructor (start: real, stop: real, stepsize: real := 0.1, delay: real := 5.0, nplc: real := 1.0,
                 temperature: bool := false)
      requires start != stop && stepsize != 0.0
      ensures Valid()
      ensures this.start == start && this.stop == stop && this.delay == delay && this.nplc == nplc
      ensures Some(this.stepsize) == CorrectStep(start, stop, stepsize)
      ensures nsteps == StepCount(start, stop, stepsize)
      ensures temperatureRequested == temperature
      ensures dataCount == if temperature then 3 else 2
      ensures timeoutMs == TimeoutMs(nsteps, delay, nplc)
      ensures yvalues == [] && curr == [] && vso == [] && this.temperature == [] && !measured
    {
      this.start := start;
      this.stop := stop;
      if start > stop && stepsize > 0.0 {
        this.stepsize := -stepsize;
      } else if start > stop && stepsize < 0.0 {
        this.stepsize := stepsize;
      } else if start < stop && stepsize > 0.0 {
        this.stepsize := stepsize;
      } else {
        this.stepsize := -stepsize;
      }
      this.delay := delay;
      this.nsteps := StepCount(start, stop, stepsize);
      this.nplc := nplc;
      var dataOut := DataOut(temperature);
      this.dataOut := dataOut;
      this.dataCount := ElementCount(dataOut);
      this.temperatureRequested := temperature;
      yvalues, curr, vso, this.temperature := [], [], [], [];
      measured := false;
      new;
      StepCountIgnoresSign(start, stop, stepsize, this.stepsize);
      DataCountOfDataOut(temperature);
      Timeout();
    }

    /** `timeout()`: the read timeout given to the device, in milliseconds. */
    method Timeout()
      modifies this`timeoutMs
      ensures timeoutMs == TimeoutMs(nsteps, delay, nplc)
    {
      timeoutMs := TimeoutMs(nsteps, delay, nplc);
    }

    /** The `runtime` property, in seconds. */
    function Runtime(): (t: real)
      ensures 1000.0 * t + 5000.0 == TimeoutMs(nsteps, delay, nplc)
    {
      RuntimeSeconds(nsteps, delay, nplc)
    }

    /** `program_trig`: one trigger per sweep point and reading element. */
    method ProgramTrig() returns (count: nat)
      requires Valid()
      ensures count == nsteps * (if temperatureRequested then 3 else 2)
      ensures count >= 2
    {
      DataCountOfDataOut(temperatureRequested);
      count := nsteps * dataCount;
    }

    /** `program_syst`: whether `SYST:TSC ON` is sent, i.e. whether the
        temperature-sensing feature is switched on. */
    method ProgramSyst() returns (temperatureSensing: bool)
      requires Valid()
      ensures temperatureSensing <==> temperatureRequested
      ensures temperatureSensing <==> dataCount == 3
    {
      ReportsTemperatureIff(temperatureRequested);
      DataCountOfDataOut(temperatureRequested);
      temperatureSensing := Contains(dataOut, "ETEM");
    }

    /** `begin_runs`: the flat trace is current, temperature, voltage per
        sample when temperature is reported, else current, voltage. The
        stride used is the element count derived from `data_out`, so a
        trace of whole samples is split into equal channels exactly. */
    method BeginRuns(reading: seq<real>)
      requires Valid()
      modifies this`yvalues, this`curr, this`vso, this`temperature, this`measured
      ensures measured
      ensures yvalues == reading
      ensures temperatureRequested ==> (curr, temperature, vso) == Split3(reading)
      ensures !temperatureRequested ==> (curr, vso) == Split2(reading) && temperature == old(temperature)
      ensures |reading| % dataCount == 0 ==> |curr| == |vso| == |reading| / dataCount
      ensures |reading| % dataCount == 0 && temperatureRequested ==>
                |temperature| == |curr| && Interleave3(curr, temperature, vso) == reading
      ensures |reading| % dataCount == 0 && !temperatureRequested ==> Interleave2(curr, vso) == reading
    {
      ReportsTemperatureIff(temperatureRequested);
      DataCountOfDataOut(temperatureRequested);
      yvalues := reading;
      measured := true;
      if Contains(dataOut, "ETEM") {
        curr := Strided(reading, 0, 3);
        temperature := Strided(reading, 1, 3);
        vso := Strided(reading, 2, 3);
        if |reading| % 3 == 0 {
          Split3RoundTrip(reading, |reading| / 3);
        }
      } else {
        curr := Strided(reading, 0, 2);
        vso := Strided(reading, 1, 2);
        if |reading| % 2 == 0 {
          Split2RoundTrip(reading, |reading| / 2);
        }
      }
    }

    /** `write_csv`: rows of (voltage, current[, temperature]). */
    method WriteCsv() returns (table: Option<seq<seq<real>>>)
      requires Valid() && measured
      ensures temperatureRequested ==> (table.Some? <==> |vso| == |curr| == |temperature|)
      ensures !temperatureRequested ==> (table.Some? <==> |vso| == |curr|)
      ensures table.Some? ==> |table.value| == |vso|
      ensures table.Some? && temperatureRequested ==>
                forall i :: 0 <= i < |table.value| ==> table.value[i] == [vso[i], curr[i], temperature[i]]
      ensures table.Some? && !temperatureRequested ==>
                forall i :: 0 <= i < |table.value| ==> table.value[i] == [vso[i], curr[i]]
    {
      ReportsTemperatureIff(temperatureRequested);
      if Contains(dataOut, "ETEM") {
        assert [vso, curr, temperature][1] == curr && [vso, curr, temperature][2] == temperature;
        table := CsvTable([vso, curr, temperature]);
        if table.Some? {
          forall i | 0 <= i < |table.value| ensures table.value[i] == [vso[i], curr[i], temperature[i]] {
            assert table.value[i][0] == vso[i] && table.value[i][1] == curr[i] && table.value[i][2] == temperature[i];
          }
        }
      } else {
        assert [vso, curr][0] == vso && [vso, curr][1] == curr;
        table := CsvTable([vso, curr]);
        if table.Some? {
          forall i | 0 <= i < |table.value| ensures table.value[i] == [vso[i], curr[i]] {
            assert table.value[i][0] == vso[i] && table.value[i][1] == curr[i];
          }
        }
      }
    }
  }
}

# kiv: a verified model of the Keithley sweep and current-versus-time controllers

kiv drives Keithley electrometers over VISA. It has three controllers:

- `Keithley6487_IV`: a voltage sweep on the 6487.
- `Keithley6517B_IV`: a stepped sweep on the 6517B, optionally reading temperature too.
- `Keithley6487_CVT`: current versus time at a list of fixed voltages.

Around the instrument commands each controller does a small amount of computation:

- It derives the sweep configuration: the number of points, the read timeout, the estimated runtime, the step's sign on the 6517B, the number of elements per sample and the trigger count.
- It splits the flat reading array the device returns into channels.
- On the CVT it rebases the time channel and files each voltage's series in dictionaries.
- On the CVT it min-max normalises the currents and scales the voltage list into colour indices.

This project models that computation in Dafny and proves what the code promises about it. The model has these modules and files:

- `Sweep` (sweep.dfy) holds the shared sweep arithmetic. Python's `int()` on a float becomes the truncation `Trunc`. The 6517B `if`/`elif` chain on the step becomes `CorrectStep`.
- `Format` (format.dfy) holds the 6517B `:FORM:ELEM` element list. It covers counting the list's commas and the `'ETEM' in data_out` test.
- `Deinterleave` (deinterleave.dfy) models the numpy slices `y[k::m]` as `Strided`. It also defines their inverse, `Interleave2`/`Interleave3`, and the column-to-row transpose that `write_csv` saves.
- `KeithleyIV` (keithley_iv.dfy) has one class per IV controller. The configuration is fixed in the constructor. The timeout and the channels of the last run are fields that the methods update.
- `Cvt` (cvt.dfy) has the CVT class. Its `BeginRuns` is a loop that fills the `times` and `curr` maps. It is proved equal to the fold `Record`, the dictionary after assigning the voltages in order. `Plot` fills `normalized` and returns the colour list.
- `Wrappers` (wrappers.dfy) holds `Option`. `None` stands for a NaN result, for the ragged array numpy cannot transpose and for the KeyError of the CVT `write_csv`. The other exceptions of the source are excluded by preconditions, listed under "Left out".

Reals stand in for floats, so rounding is not modelled. Each reading the instrument returns becomes a parameter of `BeginRuns`. The `runtime` property is the class function `Runtime`, which is `Sweep.RuntimeSeconds` of the object's fields.

The channel order follows the code. Per sample, the 6517B returns current, then temperature, then voltage when temperature is requested, and current, then voltage otherwise. The 6487 returns current, then voltage. The CVT returns current, then time.

## Model

| member | source | states |
|---|---|---|
| Sweep.Trunc | kiv/Keithley_IV.py:41 | Python `int()` truncates toward zero: the result is no larger in magnitude than the argument, differs from it by less than 1, and has its sign |
| Sweep.StepCount | kiv/Keithley_IV.py:41 | for a non-zero step the point count n is at least 1 and n - 1 is the whole part of abs(stop - start) / abs(stepsize) |
| Sweep.StepCountOfTenthVoltSweep | kiv/Keithley_IV.py:41 | 0 V to 1 V in 0.1 V steps gives 11 points |
| Sweep.SweepPointsInRange | kiv/Keithley_IV.py:41 | point k of the grid lies within abs(stop - start) of start exactly when k is less than the step count |
| Sweep.StepCountIgnoresSign | kiv/Keithley_IV.py:213 | the step count depends only on the magnitude of the step, so the 6517B count from the uncorrected step equals the count from the corrected one |
| Sweep.RuntimeSeconds | kiv/Keithley_IV.py:97-99 | the estimated runtime is at least the 5 s margin whenever delay and nplc are non-negative |
| Sweep.TimeoutMs | kiv/Keithley_IV.py:59-61 | the timeout in ms is 1000 times the estimated runtime plus 5000, so it is always longer than the runtime |
| Sweep.CorrectStep | kiv/Keithley_IV.py:203-210 | a step is assigned exactly when start != stop and the step is non-zero; it has the input's magnitude, is negative exactly when start > stop and positive exactly when start < stop |
| Sweep.CorrectedSweepStaysInRange | kiv/Keithley_IV.py:203-213 | with the corrected step, start + k * step lies between start and stop exactly for k below the step count: the sweep goes towards stop and never past it |
| Format.CountChar | kiv/Keithley_IV.py:219 | `str.count` of one character is at most the string's length |
| Format.ElementCount | kiv/Keithley_IV.py:219 | the element count, commas plus one, is at least 1 |
| Format.ElementCountOfList | kiv/Keithley_IV.py:219 | for any list of comma-free names joined by commas, the element count equals the number of names |
| Format.Elements | kiv/Keithley_IV.py:215-218 | three comma-free element names are requested with temperature and two without |
| Format.DataOut | kiv/Keithley_IV.py:215-218 | `data_out` is "READ,VSO,ETEM" with temperature and "READ,VSO" without; `DataOutIsElementList` proves it is the comma-joined element list |
| Format.DataOutIsElementList | kiv/Keithley_IV.py:215-218 | `data_out` is the comma-joined element list |
| Format.DataCountOfDataOut | kiv/Keithley_IV.py:215-219 | the derived element count is 3 with temperature and 2 without |
| Format.ReportsTemperatureIff | kiv/Keithley_IV.py:273-274 | `'ETEM' in data_out` holds exactly when temperature was requested |
| Deinterleave.Strided | kiv/Keithley_IV.py:111-112 | the numpy slice `s[start::step]`: s[start], then the slice from start + step; its length and element laws are `StridedBy2` and `StridedBy3` |
| Deinterleave.StridedBy2 | kiv/Keithley_IV.py:111-112 | `s[start::2]` has len(range(start, len(s), 2)) elements, element j being s[start + 2j] |
| Deinterleave.StridedBy3 | kiv/Keithley_IV.py:295-297 | `s[start::3]` has len(range(start, len(s), 3)) elements, element j being s[start + 3j] |
| Deinterleave.Interleave2 | kiv/Keithley_IV.py:111-112 | the device's two-channel order: two equal channels give twice as many values, a[i] at 2i and b[i] at 2i + 1 |
| Deinterleave.Interleave3 | kiv/Keithley_IV.py:295-297 | the device's three-channel order: a[i], b[i], c[i] at 3i, 3i + 1, 3i + 2 |
| Deinterleave.Split2 | kiv/Keithley_IV.py:299-300 | the stride-2 split into (`y[0::2]`, `y[1::2]`); `Split2Layout` and the round-trip lemmas state its content |
| Deinterleave.Split3 | kiv/Keithley_IV.py:295-297 | the stride-3 split into (`y[0::3]`, `y[1::3]`, `y[2::3]`); `Split3Layout` and the round-trip lemmas state its content |
| Deinterleave.Split2Layout | kiv/Keithley_IV.py:111-112 | `curr` is the even-index elements, ceil(len(y)/2) of them, and `vso` is the odd-index elements, floor(len(y)/2) of them |
| Deinterleave.Split3Layout | kiv/Keithley_IV.py:295-297 | `curr`, `temperature` and `vso` are the elements at indices 0, 1 and 2 mod 3, with their lengths |
| Deinterleave.Split2RoundTrip | kiv/Keithley_IV.py:299-300 | an array of 2n readings splits into two channels of n that interleave back to the array |
| Deinterleave.Interleave2RoundTrip | kiv/Keithley_IV.py:111-112 | splitting two interleaved equal channels gives them back |
| Deinterleave.Split3RoundTrip | kiv/Keithley_IV.py:295-297 | an array of 3n readings splits into three channels of n that interleave back to the array |
| Deinterleave.Interleave3RoundTrip | kiv/Keithley_IV.py:295-297 | splitting three interleaved equal channels gives them back |
| Deinterleave.CsvTable | kiv/Keithley_IV.py:163 | the transpose exists exactly when the columns have equal length; it has one row per sample and row i holds element i of each column in column order |
| KeithleyIV.Keithley6487IV.constructor | kiv/Keithley_IV.py:35-44 | the configuration is stored as given, nsteps is the step count and the timeout is set from it |
| KeithleyIV.Keithley6487IV.Timeout | kiv/Keithley_IV.py:59-61 | sets the timeout to the TimeoutMs of the sweep and changes nothing else |
| KeithleyIV.Keithley6487IV.Runtime | kiv/Keithley_IV.py:96-99 | the estimated runtime in seconds, of which the timeout is 1000 times plus 5000 ms |
| KeithleyIV.Keithley6487IV.ProgramTrig | kiv/Keithley_IV.py:85-88 | the trigger count is nsteps, at least 1, and counts exactly the grid points within the sweep range |
| KeithleyIV.Keithley6487IV.BeginRuns | kiv/Keithley_IV.py:102-112 | `curr` and `vso` are the stride-2 split of the readings; for an even number of readings they have equal length and interleave back to the readings |
| KeithleyIV.Keithley6487IV.WriteCsv | kiv/Keithley_IV.py:161-164 | after a run, rows are (vso[i], curr[i]), one per sample, defined exactly when the channels have equal length |
| KeithleyIV.Keithley6517BIV.constructor | kiv/Keithley_IV.py:199-222 | the stored step is the sign-corrected step, nsteps is the step count, `data_out` follows the temperature flag, the element count is 3 or 2, and the timeout is set |
| KeithleyIV.Keithley6517BIV.Timeout | kiv/Keithley_IV.py:237-239 | sets the timeout to the TimeoutMs of the sweep and changes nothing else |
| KeithleyIV.Keithley6517BIV.Runtime | kiv/Keithley_IV.py:277-280 | the estimated runtime in seconds, of which the timeout is 1000 times plus 5000 ms |
| KeithleyIV.Keithley6517BIV.ProgramTrig | kiv/Keithley_IV.py:265-267 | the trigger count is nsteps times 3 with temperature and nsteps times 2 without, and at least 2 |
| KeithleyIV.Keithley6517BIV.ProgramSyst | kiv/Keithley_IV.py:270-274 | temperature sensing is switched on exactly when temperature was requested, which is exactly when the element count is 3 |
| KeithleyIV.Keithley6517BIV.BeginRuns | kiv/Keithley_IV.py:283-300 | with temperature the readings split by 3 into current, temperature, voltage, otherwise by 2 into current, voltage with `temperature` unchanged; a whole number of samples splits into equal channels that interleave back to the readings |
| KeithleyIV.Keithley6517BIV.WriteCsv | kiv/Keithley_IV.py:350-357 | after a run, rows are (vso[i], curr[i], temperature[i]) with temperature and (vso[i], curr[i]) without, defined exactly when the saved channels have equal length |
| Cvt.Rebase | kiv/cvt.py:65 | rebased times start at 0, keep the length, and keep every time difference |
| Cvt.TimesOf | kiv/cvt.py:65 | the time channel `yvalues[1::2] - yvalues[1]` of one reading; `ReadingLayout` states its length, its 0 start and its differences |
| Cvt.CurrentsOf | kiv/cvt.py:66 | the current channel `yvalues[0::2]` of one reading; `ReadingLayout` states its length and elements |
| Cvt.ReadingLayout | kiv/cvt.py:65-66 | `times[v]` is the odd-index readings minus `yvalues[1]` and starts at 0, `curr[v]` is the even-index readings, time differences are the device's, and an even-length reading gives equally long series |
| Cvt.Record | kiv/cvt.py:59-66 | the dictionary after assigning vals[i] to keys[i] in order, the value `BeginRuns` is proved to leave in `times` and `curr`; `RecordKeys`, `RecordLatest` and `RecordOthers` state its content |
| Cvt.RecordStep | kiv/cvt.py:59-66 | one more loop iteration adds one dictionary assignment |
| Cvt.RecordKeys | kiv/cvt.py:59-66 | the dictionary's keys after the loop are the old keys plus the listed voltages |
| Cvt.RecordLatest | kiv/cvt.py:59-66 | a voltage's entry is the value from its last occurrence in the list, so a later duplicate overwrites an earlier one |
| Cvt.RecordOthers | kiv/cvt.py:59-66 | keys not in the voltage list keep their old entry |
| Cvt.RunOutcome | kiv/cvt.py:59-66 | after a run every listed voltage is a key of both maps holding the series of its last reading; those series are non-empty and the times start at 0 |
| Cvt.Min | kiv/cvt.py:79 | `np.min` is a lower bound of the series |
| Cvt.Max | kiv/cvt.py:79 | `np.max` is an upper bound of the series |
| Cvt.MinAttained | kiv/cvt.py:79 | the minimum is one of the samples |
| Cvt.MaxAttained | kiv/cvt.py:79 | the maximum is one of the samples |
| Cvt.ScaleAll | kiv/cvt.py:81 | scaling keeps the length |
| Cvt.RescaleWith | kiv/cvt.py:81 | rescaling against given bounds keeps the length when defined |
| Cvt.RescaleWithAt | kiv/cvt.py:81 | a sample between the bounds maps into [0, 1], the bounds map to 0 and 1, and order is kept |
| Cvt.Rescale | kiv/cvt.py:81 | min-max scaling keeps the length |
| Cvt.RescaleDefined | kiv/cvt.py:79-81 | min-max scaling is defined, with ptp non-zero, exactly when the series is not constant |
| Cvt.RescaleBounds | kiv/cvt.py:81 | the scaled series lies in [0, 1], the minimum goes to 0, the maximum to 1, and the order of samples is kept |
| Cvt.Normalize | kiv/cvt.py:78-81 | normalisation is defined exactly when min-max scaling is, and keeps the length |
| Cvt.NormalizeRange | kiv/cvt.py:78-81 | normalised values lie in [0, 1]; for a non-negative voltage min goes to 0 and max to 1, for a negative one min goes to 1 and max to 0; both 0 and 1 are reached |
| Cvt.NormalizeOrder | kiv/cvt.py:78-81 | normalisation keeps the order of currents for a non-negative voltage and reverses it for a negative one |
| Cvt.ColourListRange | kiv/cvt.py:83 | `clist` has one entry per voltage, each in [0, 1] |
| Cvt.Keithley6487CVT.constructor | kiv/cvt.py:27-33 | the configuration is stored as given and both maps start empty |
| Cvt.Keithley6487CVT.BeginRuns | kiv/cvt.py:55-67 | the loop leaves `times` and `curr` equal to the in-order dictionary assignments; their keys are the old keys plus the voltages, each voltage holds its last reading's series, and every time series starts at 0 |
| Cvt.Keithley6487CVT.Plot | kiv/cvt.py:70-83 | when normalising, `normalized` has exactly the voltages as keys, each holding the normalised currents for that voltage; otherwise it is untouched; `clist` is the min-max scaled voltage list |
| Cvt.Keithley6487CVT.WriteCsv | kiv/cvt.py:110-112 | rows are (times[v][i], curr[v][i]); none for a voltage that was not measured or whose series differ in length |

## Left out

- The `ID` parameter of the constructors (the VISA address) is dropped. The other default arguments are Dafny default values: `stepsize = 0.1`, `delay = 5`, `nplc = 1`, `temperature = false`, the CVT `delay = 2`, and `plot(normalize = true)`.
- Instrument I/O is not modelled. This covers the VISA resource manager, every `write`/`query`/`query_ascii_values` call, the SCPI command strings, `*RST`, setting the timeout on the device and `close_keithley`. A reading is an input sequence. `Timeout` stores the value that would be sent.
- `setup_run` of the CVT is not modelled. It is only commands: the fixed 50000 ms timeout, `:FORM:ELEM READ,TIME`, the trigger count `nval` and the source voltage. `nval` is kept as a field.
- `time.sleep` is not modelled: the 6517B wait of `int(runtime) + 5` s and the CVT delay between voltages. It is timing only.
- `calc_resistance` (`stats.linregress`, 1/slope) is not modelled. It is a floating-point least-squares library call.
- `calc_resistivity` is not modelled. It depends on the pint units library.
- The matplotlib drawing in every `plot` is not modelled. The CVT `plot` is modelled only for `normalized` and `clist`, which feed it.
- `np.savetxt` file output is not modelled. `WriteCsv` returns the table that would be saved.
- Float rounding is not modelled: reals stand in for floats, and `int()` is exact truncation of a real. So `nsteps` can be one more than Python's: for 0 V to 0.3 V in 0.1 V steps Python computes `int(3.9999999999999996)`, 3 points, where `StepCount(0.0, 0.3, 0.1)` is 4.
- numpy NaN is `None`. This covers scaling a constant series, where ptp is 0, and the ragged array numpy cannot transpose.
- Cases where the source raises are excluded by preconditions:
  - a zero step (ZeroDivisionError);
  - start == stop on the 6517B, where `self.stepsize` is never assigned and the later read fails;
  - a CVT reading with fewer than two values (`yvalues[1]`);
  - `plot` on an empty voltage list (`np.min`) or on a voltage without data (KeyError);
  - `write_csv` of an IV controller before `begin_runs`, where the channel attributes do not exist yet (AttributeError). The ghost flag `measured` records whether a run happened, and `WriteCsv` requires it.
- The channel fields of the IV classes, and `yvalues` of the CVT class, start as empty sequences, because a Dafny field needs a value. In the source they do not exist before `begin_runs`, and the 6517B never creates `temperature` when temperature is not reported. No modelled operation reads them before a run.
- Keithley6517BIV.constructor: line 219 of kiv/Keithley_IV.py counts commas in `self.data_count`, which does not exist yet. The model counts commas in `data_out`, as evidently intended.
- Cvt.Keithley6487CVT.constructor stores the given `delay`. Line 31 of kiv/cvt.py ignores the argument and sets 2.
- Cvt.Keithley6487CVT.BeginRuns iterates `self.volts` and has no device object. Line 59 of kiv/cvt.py uses an undefined name `volts`, and lines 62-63 use an undefined `keithley`.
- Cvt.Keithley6487CVT.Plot tests the sign of each voltage. Line 78 of kiv/cvt.py tests the whole list `volts`, and line 77 lacks its colon, so the file does not parse as written. Line 83 scales `self.volts` where the source writes the undefined `volts`.
- Cvt.Keithley6487CVT.WriteCsv transposes the (times, currents) pair. Line 112 of kiv/cvt.py passes `delimiter` to `np.transpose` instead of `np.savetxt`.

# Brushed DC motor calculator, modelled in Dafny

This project models the core of a calculator for brushed DC motors. The
motor model is steady-state and includes a constant internal friction torque.
The repository has two scripts, and both are pure straight-line computations:

- `dc_motor_calc.py` estimates the motor constants from bench measurements. It
  takes one bench measurement (no-load point, a load point and the stall
  point, possibly behind a gearbox) and refers it to the motor shaft. It then
  estimates the armature resistance `Ra`, the torque constant `KM`, the
  friction torque `Tf` and the back-EMF constant `KF`. From these it computes
  the output scalars and samples torque, speed, current, power and efficiency
  along a magnetic-torque axis made with `numpy.linspace`.
- `main.py` is the direct solver. It starts from given constants and computes
  the same summary scalars. It samples the speed-to-torque,
  torque-to-speed, torque-to-power and torque-to-efficiency characteristics
  with list comprehensions. It converts the efficiency to percent and lays
  each characteristic out as a two-column table with a header row.

Every quantity is a Dafny `real`, so all identities hold exactly. Where the Python
divides, the model has a `requires` that the divisor is not zero. The code never
guards its divisions, and a Python float division by zero raises an exception.

Modules, one per part of the program:

- `Measurement` (`measurement.dfy`): the measurement record and its referral to
  the motor shaft.
- `Estimation` (`estimation.dfy`): the estimation formulas. It also proves what
  the fitted constants reproduce of the measurement.
- `Characteristics` (`characteristics.dfy`): the armature equations at one
  operating point and the summary scalars, shared by both scripts.
- `Sampling` (`sampling.dfy`): `linspace(0, 1, N)` stretched onto an interval,
  and the grid `lo + (hi - lo) * i / (N - 1)`.
- `TorqueCurves` (`torque_curves.dfy`): the arrays of `dc_motor_calc.py`.
- `Solver` (`solver.dfy`): the arrays, percent conversion and table rows of
  `main.py`.
- `RealArith` (`real_arith.dfy`): small facts about products and quotients of
  reals.

The scalars at `dc_motor_calc.py:86-94` compute the same values as `main.py:23-32`.
Each value is one function of `Characteristics`, cited once below.
`dc_motor_calc.py:88` computes `Tmagmax` as `Imax*KM` with `Imax = Ua/Ra`, whereas
`main.py:25` writes `(Va*KM)/Ra`. The first ensures of `MaxMagTorque` states
that the two agree.

| `dc_motor_calc.py` | Dafny function |
|---|---|
| `I0` | `NoLoadCurrent` |
| `Imax` | `StallCurrent` |
| `Tmagmax` | `MaxMagTorque` |
| `wmax0` | `IdealNoLoadSpeed` |
| `wmax` | `NoLoadSpeed` |
| `hmax` | `MaxEfficiency` |
| `Pmmax` | `MaxPower` |
| `dwdT` | `SpeedTorqueSlope` |

Where the script rebinds a global name (`Imax`, `wmax0`, `dwdT`), the
recomputed value is a separate function. The estimate of a name is a field of
`Estimation.Estimates`.

## Edge cases of the code

- The code raises no error of its own. Its only failures are divisions by
  zero, and the model states the absence of each as a `requires`. Among them:
  - `Estimation.Estimable` for the estimation (`dc_motor_calc.py:57-67`);
  - a nonzero reduction ratio for `Measurement.Normalize` (`dc_motor_calc.py:38-39`);
  - a nonzero voltage wherever the fitted `KF` must be nonzero, as in
    `Estimation.FitReproducesCurrents` (the division at `dc_motor_calc.py:87`
    and `89`);
  - nonzero `Ra`, `KM`, `KF` and `Va` throughout `Characteristics`, and a
    nonzero `J` for `Characteristics.MaxAngularAccel` (`main.py:32`);
  - `N != 1` for the list-comprehension axes (`main.py:44-45`);
  - nonzero torques for the efficiency (`main.py:49`).
- `main.py:44-45` divides by zero for `N == 1` and gives empty lists for
  `N == 0`. `dc_motor_calc.py:106` uses `numpy.linspace(0, 1, 1) == [0.0]`, so
  its axis is `[Tf]`. The model does all three (`Sampling.Linspace01`,
  `Sampling.Grid`).
- `** 0.5` of a negative number gives a complex number in Python
  (`dc_motor_calc.py:92`, `main.py:26`). The model takes the square root as a
  witness `s` with `s >= 0` and `s * s == Ra*Tf/(Va*KM)`, so that case cannot
  be expressed.
- The efficiency at `Tmag == Tf` is the formula evaluated directly. It is 0
  whenever `Tf != 0` (`Characteristics.EfficiencyZeroAtEnds`). With `Tf == 0`
  the first torque is 0 and the formula divides by it.
- `dc_motor_calc.py:111` multiplies the speed by the output torque `Tout`, while
  `main.py:48` multiplies it by the magnetic torque `T`.
  `Solver.PowerSamplesExceedOutput` proves that the difference is speed times
  friction torque.

## Model

| member | source | states |
|---|---|---|
| Measurement.Normalize | dc_motor_calc.py:31-43 | The shaft entry is returned with the ratio `r`. Speeds are multiplied by `r` and torques divided by it. Voltage and currents are kept, and the ratio becomes 1. The load-point power `wr*Tr` is unchanged. |
| Measurement.Denormalize | dc_motor_calc.py:31-43 | The inverse referral to a gearbox of ratio `r`. Speeds are divided by `r`, torques multiplied by it, and the rest kept. |
| Measurement.NormalizeRoundTrip | dc_motor_calc.py:31-43 | Denormalizing the result with the returned ratio gives back the original entry. |
| Measurement.NormalizeOnShaft | dc_motor_calc.py:31-43 | An entry with ratio 1 is returned unchanged, with ratio 1. |
| Measurement.NormalizeIdempotent | dc_motor_calc.py:31-43 | Normalizing a normalized entry changes nothing. |
| Estimation.Estimate | dc_motor_calc.py:55-67 | `Ra*Imax == U` and `KM*(Imax - I0) == Tmax`. `Tf*(Imax - I0) == Tmax*I0`. Each slope times its torque or current span is the matching difference, e.g. `dwdT*Tmax == -wmax` and `dTdI1*(Ir - I0) == Tr`. The back-extrapolated speed is `wmax*(1 + Tf/Tmax)`, and `wmax0*(Imax - I0) == wmax*Imax`. `KF*wmax0 == U`. |
| Estimation.EstimatePhysical | dc_motor_calc.py:55-67 | Take `U > 0`, `Imax > I0 >= 0`, `Tmax > 0` and `wmax > 0`. Then `Ra, KM, KF > 0`, `Tf >= 0`, and `Tf < KM*Imax`. |
| Estimation.BackExtrapolationRaises | dc_motor_calc.py:61-66 | `wmax0 >= wmax`. Equality holds iff `I0 == 0`. `Tf == 0` iff `I0 == 0`. |
| Estimation.SpeedSlopesAgree | dc_motor_calc.py:59-61 | `dwdT1 == dwdT` iff the load point lies on the line from the no-load point to the stall point. The same holds for `dwdT2 == dwdT`. |
| Estimation.TorqueSlopesAgree | dc_motor_calc.py:62-64 | `dTdI1 == KM` iff the load point lies on the torque-current line through the no-load and stall points. |
| Estimation.FitReproducesCurrents | dc_motor_calc.py:86-88 | From the fitted constants: the recomputed no-load current is the measured `I0`. The stall current is the measured `Imax`. The maximum magnetic torque minus `Tf` is the measured `Tmax`. |
| Estimation.FitReproducesNoLoadSpeed | dc_motor_calc.py:89-90 | The recomputed `wmax0` is the back-extrapolated one. The recomputed `wmax` is the measured no-load speed. |
| Estimation.FitReproducesSlope | dc_motor_calc.py:94 | The recomputed slope `Ra/(KF*KM)` is the measured no-load-to-stall slope of line 61, with its sign turned. |
| Estimation.FitReproducesRatedSpeed | dc_motor_calc.py:105-108 | If the load point is on the measured speed line, the fitted speed at magnetic torque `Tf + Tr` is `wr`. |
| Estimation.FitReproducesRatedCurrent | dc_motor_calc.py:107-110 | If the load point is on the measured current line, the fitted current at magnetic torque `Tf + Tr` is `Ir`. |
| Characteristics.Current | dc_motor_calc.py:110 | The torque equation `KM*I == T`. |
| Characteristics.Speed | main.py:47 | The voltage equation `Va == KF*w + Ra*I(T)`. |
| Characteristics.TorqueAtSpeed | main.py:46 | The returned torque satisfies the voltage equation at speed `w`. |
| Characteristics.PowerAt | main.py:48 | The power is speed times magnetic torque. |
| Characteristics.Efficiency | main.py:49 | Efficiency times input power `Va*I` equals output power `w*(T - Tf)`. |
| Characteristics.StallCurrent | dc_motor_calc.py:87 | Ohm's law at standstill: `Ra*I == Va`. |
| Characteristics.MaxMagTorque | main.py:25 | The torque of the stall current, at which the speed is 0. |
| Characteristics.IdealNoLoadSpeed | main.py:23 | `KF*w == Va`. It is the speed at zero magnetic torque. |
| Characteristics.NoLoadSpeed | main.py:24 | The speed at magnetic torque `Tf`, that is, at zero output torque. |
| Characteristics.NoLoadCurrent | main.py:28 | The current at magnetic torque `Tf`. |
| Characteristics.TorqueToCurrent | main.py:29 | The reciprocal of `KM`. |
| Characteristics.VoltageToSpeed | main.py:30 | The reciprocal of `KF`. |
| Characteristics.SpeedTorqueSlope | main.py:31 | `k*(KF*KM) == Ra`. |
| Characteristics.MaxPower | main.py:27 | The power at half the maximum magnetic torque. |
| Characteristics.MaxAngularAccel | main.py:32 | `J*alpha` is the maximum magnetic torque less friction. |
| Characteristics.MaxEfficiency | main.py:26 | Non-negative whenever `KM/KF > 0`, given the square-root witness `s`. |
| Characteristics.SpeedTorqueInverse | main.py:46-47 | Torque-at-speed and speed-at-torque are inverse maps, in both orders. |
| Characteristics.SpeedLine | main.py:47 | The speed falls linearly in the torque, with slope `dwdT`. |
| Characteristics.SlopePositive | main.py:31 | `dwdT > 0` when `Ra`, `KM` and `KF` are positive. |
| Characteristics.SpeedDecreasing | dc_motor_calc.py:108 | The speed is strictly decreasing in the magnetic torque. |
| Characteristics.CurrentIncreasing | dc_motor_calc.py:110 | The current is strictly increasing in the magnetic torque. |
| Characteristics.SpeedPositiveBelowStall | main.py:47 | Below the maximum magnetic torque, the speed is positive. |
| Characteristics.NoLoadBelowIdeal | main.py:23-24 | `maxw <= maxw0`. Equality holds iff `Tf == 0`. |
| Characteristics.PowerBound | main.py:48 | The power at every torque is at most `maxPL`, by completing the square. |
| Characteristics.EfficiencyRange | main.py:49 | On `[Tf, maxTmag]`, with `T > 0` and `Va > 0`, we have `0 <= h <= KM/KF`. |
| Characteristics.EfficiencyBound | main.py:26 | The efficiency at every positive torque is at most `(KM/KF)*(1 - s)^2`. |
| Characteristics.EfficiencyMaxAttained | main.py:26 | The maximum efficiency is reached at `T = s*Va*KM/Ra`. |
| Characteristics.EfficiencyZeroAtEnds | main.py:49 | The efficiency is 0 at the maximum magnetic torque. It is 0 at `Tf` when `Tf != 0`. |
| Characteristics.CoefficientRelations | main.py:28-31 | `I0 == Tf*TIa` and `Vaw*Va == maxw0`. `dwdT == Ra*Vaw*TIa`. `maxw == maxw0 - dwdT*Tf`. |
| Characteristics.AccelPositive | main.py:32 | `alfa > 0` when `J > 0` and `maxTmag > Tf`. |
| Characteristics.Speeds | dc_motor_calc.py:108 | Each speed sample satisfies the voltage equation at its torque. |
| Characteristics.Currents | dc_motor_calc.py:110 | Each current sample satisfies the torque equation at its torque. |
| Characteristics.Efficiencies | dc_motor_calc.py:112 | Each efficiency sample is output power over input power at its torque. |
| Sampling.Linspace01 | dc_motor_calc.py:106 | `N` points, the first 0 and the last 1. A single point is `[0]`. |
| Sampling.Stretch | dc_motor_calc.py:106 | Entries 0 and 1 map to `lo` and `hi`. |
| Sampling.Grid | main.py:44-45 | `N` points, the first `lo` and the last `hi`. |
| Sampling.GridEvenlySpaced | main.py:44-45 | Points `i` and `j` lie `j - i` steps of `(hi - lo)/(N - 1)` apart. |
| Sampling.GridPoint | main.py:44-45 | Point `i` is `i` steps above `lo`. |
| Sampling.GridIncreasing | main.py:44-45 | Strictly increasing when `lo < hi`. |
| Sampling.GridWithin | main.py:44-45 | Every point lies in `[lo, hi]`. |
| Sampling.StretchedLinspaceIsGrid | dc_motor_calc.py:106 | The stretched `linspace(0, 1, N)` equals the grid, for `N != 1`. |
| TorqueCurves.MagTorques | dc_motor_calc.py:106 | `N` torques. With `N == 1` the axis is `[Tf]`. Otherwise it is the grid from `Tf` to the maximum magnetic torque. |
| TorqueCurves.OutputTorques | dc_motor_calc.py:107 | Output torque plus friction is the magnetic torque. |
| TorqueCurves.Powers | dc_motor_calc.py:111 | A sample is 0 where its speed or its output torque is 0. |
| TorqueCurves.CurveEnds | dc_motor_calc.py:105-111 | `Tmag` runs from `Tf` to `Tmagmax`, and `Tout` from 0 to `Tmagmax - Tf`. `w` runs from `wmax` to 0, and `I` from `I0` to `Imax`. `Pm` is 0 at both ends. |
| TorqueCurves.MagTorquesIncreasing | dc_motor_calc.py:106 | Strictly increasing when `Tmagmax > Tf`. |
| TorqueCurves.SpeedCurveDecreasing | dc_motor_calc.py:108 | `w` is strictly decreasing along the axis. |
| TorqueCurves.CurrentCurveIncreasing | dc_motor_calc.py:110 | `I` is strictly increasing along the axis. |
| TorqueCurves.PowerCurvePositive | dc_motor_calc.py:111 | `Pm` is positive strictly between the ends. |
| TorqueCurves.PowerCurveBounded | dc_motor_calc.py:111 | Every `Pm` sample is at most `Pmmax`. |
| TorqueCurves.OutputPowerBound | dc_motor_calc.py:111 | On the working range, speed times output torque is at most `Pmmax`. |
| TorqueCurves.EfficiencyCurve | dc_motor_calc.py:112 | When `Tf > 0`, every torque is positive. `h` is 0 at both ends and lies in `[0, KM/KF]`. |
| TorqueCurves.EfficiencyCurveBelowMax | dc_motor_calc.py:112 | No `h` sample exceeds `hmax`. |
| TorqueCurves.CurvesThroughMeasurements | dc_motor_calc.py:105-110 | With fitted constants: `Tout` ends at the measured `Tmax`. `w` runs from the measured `wmax` to 0, and `I` from the measured `I0` to the measured `Imax`. |
| Solver.SpeedAxis | main.py:44 | `N` speeds from 0 to `maxw0`. |
| Solver.TorqueAxis | main.py:45 | `N` torques from `Tf` to `maxTmag`. |
| Solver.TorquesAtSpeeds | main.py:46 | Each `T_w` sample satisfies the voltage equation at its speed. |
| Solver.PowersAt | main.py:48 | Each `PL_T` sample is the sampled speed times its torque. |
| Solver.Percent | main.py:94 | Same length; each entry divided by 100 is the fraction. |
| Solver.TableRows | main.py:63-67 | A header row with the two labels, then one row `[x[i], y[i]]` per entry of `x`. |
| Solver.DataColumns | main.py:63-67 | Rows are read back iff every row is a pair of numbers; the columns have the same length as the rows. |
| Solver.TableRoundTrip | main.py:63-67 | Reading the data rows back gives `x` and the first `|x|` entries of `y`. |
| Solver.SpeedAxisEvenlySpaced | main.py:44 | Steps of `maxw0/(N - 1)`. |
| Solver.TorqueAxisEvenlySpaced | main.py:45 | Steps of `(maxTmag - Tf)/(N - 1)`. |
| Solver.SharedTorqueAxis | main.py:45 | `Tx` is the `Tmag` axis of the estimating script. |
| Solver.AxesIncreasing | main.py:44-45 | `wx` is strictly increasing, and so is `Tx` when `maxTmag > Tf`. |
| Solver.CharacteristicEnds | main.py:46-47 | `T_w` runs from `maxTmag` to 0, and `w_T` from `maxw` to 0. |
| Solver.SampledInverse | main.py:46-47 | `w_T` applied to `T_w` gives the speeds back, and conversely, on any axis. |
| Solver.SampledSpeedSlope | main.py:47 | Along any torque axis, `w_T` falls with slope `dwdT`. |
| Solver.PowerSamplesBounded | main.py:48 | Every `PL_T` sample is at most `maxPL`. |
| Solver.PowerSamplesExceedOutput | main.py:48 | `PL_T[i] - Pm[i] == w[i]*Tf`. |
| Solver.EfficiencySamples | main.py:49 | When `Tf > 0`, every `Tx` sample is nonzero. The percent efficiency is 0 at both ends and lies in `[0, 100*KM/KF]`. |

## Left out

- Plotting (`dc_motor_calc.py:115-171`; the `plt` calls at `main.py:54-60` and `70`; the calls at `main.py:76`, `82`, `88` and `95`): matplotlib rendering with no domain logic.
- Opening the file and handing rows to the CSV writer (`main.py:63-64`): file I/O. The rows themselves are modelled.
- The constructor default `reduction_ratio = 1` (`dc_motor_calc.py:29`): a Dafny datatype has no default field values, so every entry states its ratio.
- Console output (`print` and `format` calls): console formatting.
- The bench example and unit constants (`kgcm`, `rpm`, the entry at `dc_motor_calc.py:49`): constants only, and `rpm` uses the irrational `pi`.
- The numeric constants at `main.py:13-20`: they become parameters. The inductance `La` is never used.
- The commented-out alternative derivations (`dc_motor_calc.py:69-73, 91, 109`): dead code.
- Floating-point rounding: every quantity is an exact `real`.
- Characteristics.MaxEfficiency: takes the square root of `Ra*Tf/(Va*KM)` as a witness `s` with `s >= 0 && s*s == Ra*Tf/(Va*KM)`, because Dafny has no real square root. The complex result Python gives for a negative radicand is not modelled.
- Characteristics.Efficiencies: requires every torque to be nonzero. numpy would give `nan` or `inf` at a zero torque instead of raising, and those values are not modelled.
- Measurement.Normalize: requires a nonzero ratio. A zero ratio raises a division error in Python, and the model does not model that error.

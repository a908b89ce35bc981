/** The direct solver: from known motor constants and an armature voltage it
    samples the speed-to-torque, torque-to-speed, torque-to-power and
    torque-to-efficiency characteristics on evenly spaced axes, and lays each
    one out as the rows of a two-column table. */
module Solver {
  import opened Characteristics
  import opened Sampling
  import opened TorqueCurves

  // ---------------------------------------------------------------------------
  // The sample axes

  /** The angular-speed axis wx: N speeds from standstill to the ideal no-load
      speed. A single point divides by zero, so N == 1 is excluded. */
  function SpeedAxis(m: Motor, Va: real, N: nat): (wx: seq<real>)
    requires m.KF != 0.0 && N != 1
    ensures |wx| == N
    ensures N >= 2 ==> wx[0] == 0.0 && wx[N - 1] == IdealNoLoadSpeed(m, Va)
  {
    Grid(0.0, IdealNoLoadSpeed(m, Va), N)
  }

  /** The magnetic-torque axis Tx: N torques from the friction torque to the
      maximum magnetic torque. It is the same axis as the estimating
      calculator's, built there from linspace(0, 1, N). */
  function TorqueAxis(m: Motor, Va: real, N: nat): (Tx: seq<real>)
    requires m.Ra != 0.0 && N != 1
    ensures |Tx| == N
    ensures N >= 2 ==> Tx[0] == m.Tf && Tx[N - 1] == MaxMagTorque(m, Va)
  {
    Grid(m.Tf, MaxMagTorque(m, Va), N)
  }

  // ---------------------------------------------------------------------------
  // The sampled characteristics

  /** T_w: the magnetic torque at each speed of the axis. */
  function TorquesAtSpeeds(m: Motor, Va: real, wx: seq<real>): (Tw: seq<real>)
    requires m.Ra != 0.0
    ensures |Tw| == |wx|
    ensures m.KM != 0.0 ==> forall i :: 0 <= i < |wx| ==> Va == m.KF * wx[i] + m.Ra * Current(m, Tw[i])
  {
    seq(|wx|, i requires 0 <= i < |wx| => TorqueAtSpeed(m, Va, wx[i]))
  }

  /** PL_T: the mechanical power at each torque of the axis, counted on the
      magnetic torque. */
  function PowersAt(m: Motor, Va: real, Tx: seq<real>): (PL: seq<real>)
    requires m.KF != 0.0 && m.KM != 0.0
    ensures |PL| == |Tx|
    ensures forall i :: 0 <= i < |Tx| ==> PL[i] == Speeds(m, Va, Tx)[i] * Tx[i]
  {
    seq(|Tx|, i requires 0 <= i < |Tx| => PowerAt(m, Va, Tx[i]))
  }

  /** Fractions turned into percentages. */
  function Percent(h: seq<real>): (pct: seq<real>)
    ensures |pct| == |h|
    ensures forall i :: 0 <= i < |h| ==> pct[i] / 100.0 == h[i]
  {
    seq(|h|, i requires 0 <= i < |h| => h[i] * 100.0)
  }

  // ---------------------------------------------------------------------------
  // The two-column tables

  datatype Option<T> = None | Some(value: T)

  /** A table cell: a column label or a number. */
  datatype Cell = Text(text: string) | Number(v: real)

  /** The rows written for one characteristic: a header with the two labels,
      then one row [x[i], y[i]] per entry of x. */
  function TableRows(xLabel: string, yLabel: string, x: seq<real>, y: seq<real>): (rows: seq<seq<Cell>>)
    requires |x| <= |y|
    ensures |rows| == |x| + 1
    ensures rows[0] == [Text(xLabel), Text(yLabel)]
    ensures forall i :: 0 <= i < |x| ==> rows[i + 1] == [Number(x[i]), Number(y[i])]
  {
    [[Text(xLabel), Text(yLabel)]] + seq(|x|, i requires 0 <= i < |x| => [Number(x[i]), Number(y[i])])
  }

  /** Reads the two numeric columns back from data rows; None if a row is not
      a pair of numbers. */
  function DataColumns(rows: seq<seq<Cell>>): (cols: Option<(seq<real>, seq<real>)>)
    ensures cols.Some? <==> forall i :: 0 <= i < |rows| ==> NumberPair(rows[i])
    ensures cols.Some? ==> |cols.value.0| == |rows| && |cols.value.1| == |rows|
  {
    if forall i :: 0 <= i < |rows| ==> NumberPair(rows[i]) then
      Some((seq(|rows|, i requires 0 <= i < |rows| && NumberPair(rows[i]) => rows[i][0].v),
            seq(|rows|, i requires 0 <= i < |rows| && NumberPair(rows[i]) => rows[i][1].v)))
    else
      None
  }

  predicate NumberPair(row: seq<Cell>) {
    |row| == 2 && row[0].Number? && row[1].Number?
  }

  // ---------------------------------------------------------------------------
  // Properties

  /** The speed axis is evenly spaced, with step maxw0/(N - 1). */
  lemma SpeedAxisEvenlySpaced(m: Motor, Va: real, N: nat)
    requires m.KF != 0.0 && N >= 2
    ensures forall i, j :: 0 <= i < N && 0 <= j < N ==>
      SpeedAxis(m, Va, N)[j] - SpeedAxis(m, Va, N)[i]
        == ((j - i) as real) * (IdealNoLoadSpeed(m, Va) / ((N - 1) as real))
  {
    var wx := SpeedAxis(m, Va, N);
    var step := IdealNoLoadSpeed(m, Va) / ((N - 1) as real);
    GridEvenlySpaced(0.0, IdealNoLoadSpeed(m, Va), N);
    forall i, j | 0 <= i < N && 0 <= j < N
      ensures wx[j] - wx[i] == ((j - i) as real) * step
    {
      assert wx[j] - wx[i] == ((j - i) as real) * ((IdealNoLoadSpeed(m, Va) - 0.0) / ((N - 1) as real));
    }
  }

  /** The torque axis is evenly spaced, with step (maxTmag - Tf)/(N - 1). */
  lemma TorqueAxisEvenlySpaced(m: Motor, Va: real, N: nat)
    requires m.Ra != 0.0 && N >= 2
    ensures forall i, j :: 0 <= i < N && 0 <= j < N ==>
      TorqueAxis(m, Va, N)[j] - TorqueAxis(m, Va, N)[i]
        == ((j - i) as real) * ((MaxMagTorque(m, Va) - m.Tf) / ((N - 1) as real))
  {
    GridEvenlySpaced(m.Tf, MaxMagTorque(m, Va), N);
  }

  /** The solver's torque axis Tx is the estimating calculator's Tmag axis. */
  lemma SharedTorqueAxis(m: Motor, Va: real, N: nat)
    requires m.Ra != 0.0 && N != 1
    ensures TorqueAxis(m, Va, N) == MagTorques(m, Va, N)
  {
  }

  /** For a physical motor both axes are strictly increasing (the torque axis
      when the maximum magnetic torque exceeds friction). */
  lemma AxesIncreasing(m: Motor, Va: real, N: nat)
    requires Physical(m) && Va > 0.0 && N >= 2
    ensures forall i, j :: 0 <= i < j < N ==> SpeedAxis(m, Va, N)[i] < SpeedAxis(m, Va, N)[j]
    ensures MaxMagTorque(m, Va) > m.Tf ==>
      forall i, j :: 0 <= i < j < N ==> TorqueAxis(m, Va, N)[i] < TorqueAxis(m, Va, N)[j]
  {
    assert m.KF * IdealNoLoadSpeed(m, Va) == Va;
    GridIncreasing(0.0, IdealNoLoadSpeed(m, Va), N);
    if MaxMagTorque(m, Va) > m.Tf {
      GridIncreasing(m.Tf, MaxMagTorque(m, Va), N);
    }
  }

  /** The ends of the two characteristics: the torque is maxTmag at standstill
      and 0 at the ideal no-load speed; the speed is maxw at the friction torque
      and 0 at the maximum magnetic torque. */
  lemma CharacteristicEnds(m: Motor, Va: real, N: nat)
    requires m.Ra != 0.0 && m.KM != 0.0 && m.KF != 0.0 && N >= 2
    ensures var Tw := TorquesAtSpeeds(m, Va, SpeedAxis(m, Va, N));
      Tw[0] == MaxMagTorque(m, Va) && Tw[N - 1] == 0.0
    ensures var wT := Speeds(m, Va, TorqueAxis(m, Va, N));
      wT[0] == NoLoadSpeed(m, Va) && wT[N - 1] == 0.0
  {
    var wx := SpeedAxis(m, Va, N);
    var Tw := TorquesAtSpeeds(m, Va, wx);
    assert m.Ra * Current(m, Tw[N - 1]) == 0.0;
    assert m.KM * Current(m, Tw[N - 1]) == Tw[N - 1];
  }

  /** T_w and w_T are inverse maps, entry by entry, on any axis. */
  lemma SampledInverse(m: Motor, Va: real, wx: seq<real>, Tx: seq<real>)
    requires m.Ra != 0.0 && m.KM != 0.0 && m.KF != 0.0
    ensures Speeds(m, Va, TorquesAtSpeeds(m, Va, wx)) == wx
    ensures TorquesAtSpeeds(m, Va, Speeds(m, Va, Tx)) == Tx
  {
    var a := Speeds(m, Va, TorquesAtSpeeds(m, Va, wx));
    forall i | 0 <= i < |wx|
      ensures a[i] == wx[i]
    {
      SpeedTorqueInverse(m, Va, wx[i], 0.0);
    }
    var b := TorquesAtSpeeds(m, Va, Speeds(m, Va, Tx));
    forall i | 0 <= i < |Tx|
      ensures b[i] == Tx[i]
    {
      SpeedTorqueInverse(m, Va, 0.0, Tx[i]);
    }
  }

  /** Along any torque axis the sampled speed falls at slope dwdT. */
  lemma SampledSpeedSlope(m: Motor, Va: real, Tx: seq<real>)
    requires m.KF != 0.0 && m.KM != 0.0
    ensures forall i, j :: 0 <= i < |Tx| && 0 <= j < |Tx| ==>
      Speeds(m, Va, Tx)[i] - Speeds(m, Va, Tx)[j] == SpeedTorqueSlope(m) * (Tx[j] - Tx[i])
  {
    var wT := Speeds(m, Va, Tx);
    forall i, j | 0 <= i < |Tx| && 0 <= j < |Tx|
      ensures wT[i] - wT[j] == SpeedTorqueSlope(m) * (Tx[j] - Tx[i])
    {
      SpeedLine(m, Va, Tx[i], Tx[j]);
    }
  }

  /** No power sample, on any torque axis, exceeds maxPL. */
  lemma PowerSamplesBounded(m: Motor, Va: real, Tx: seq<real>)
    requires m.Ra > 0.0 && m.KM > 0.0 && m.KF > 0.0
    ensures forall i :: 0 <= i < |Tx| ==> PowersAt(m, Va, Tx)[i] <= MaxPower(m, Va)
  {
    forall i | 0 <= i < |Tx|
      ensures PowersAt(m, Va, Tx)[i] <= MaxPower(m, Va)
    {
      PowerBound(m, Va, Tx[i]);
    }
  }

  /** The power counted on the magnetic torque exceeds the output power of the
      estimating calculator by speed times friction torque, sample by sample;
      on the shared torque axis Tx == Tmag this compares PL_T with Pm. */
  lemma PowerSamplesExceedOutput(m: Motor, Va: real, Tmag: seq<real>)
    requires m.KM != 0.0 && m.KF != 0.0
    ensures var w := Speeds(m, Va, Tmag);
      var Pm := Powers(w, OutputTorques(Tmag, m.Tf));
      forall i :: 0 <= i < |Tmag| ==> PowersAt(m, Va, Tmag)[i] - Pm[i] == w[i] * m.Tf
  {
    var w := Speeds(m, Va, Tmag);
    var Tout := OutputTorques(Tmag, m.Tf);
    var Pm := Powers(w, Tout);
    var PL := PowersAt(m, Va, Tmag);
    forall i | 0 <= i < |Tmag|
      ensures PL[i] - Pm[i] == w[i] * m.Tf
    {
      FrictionPower(w[i], Tmag[i], Tout[i], m.Tf);
    }
  }

  lemma FrictionPower(w: real, T: real, Tout: real, Tf: real)
    requires Tout + Tf == T
    ensures w * T - w * Tout == w * Tf
  {
  }

  /** With friction the torque axis never reaches 0, so h_T is defined; it is 0
      at both ends of the axis and, in percent, lies between 0 and 100*KM/KF. */
  lemma EfficiencySamples(m: Motor, Va: real, N: nat)
    requires Physical(m) && Va > 0.0 && N >= 2 && 0.0 < m.Tf <= MaxMagTorque(m, Va)
    ensures NonZero(TorqueAxis(m, Va, N))
    ensures var pct := Percent(Efficiencies(m, Va, TorqueAxis(m, Va, N)));
      |pct| == N && pct[0] == 0.0 && pct[N - 1] == 0.0
      && forall i :: 0 <= i < N ==> 0.0 <= pct[i] <= 100.0 * (m.KM / m.KF)
  {
    var Tx := TorqueAxis(m, Va, N);
    EfficiencyCurve(m, Va, N);
    var h := Efficiencies(m, Va, Tx);
    var pct := Percent(h);
    forall i | 0 <= i < N
      ensures 0.0 <= pct[i] <= 100.0 * (m.KM / m.KF)
    {
      assert pct[i] == 100.0 * h[i];
    }
  }

  /** The data rows of a table give back the two columns written into them. */
  lemma TableRoundTrip(xLabel: string, yLabel: string, x: seq<real>, y: seq<real>)
    requires |x| <= |y|
    ensures DataColumns(TableRows(xLabel, yLabel, x, y)[1..]) == Some((x, y[..|x|]))
  {
    var rows := TableRows(xLabel, yLabel, x, y)[1..];
    assert forall i :: 0 <= i < |rows| ==> rows[i] == [Number(x[i]), Number(y[i])];
    var cols := DataColumns(rows);
    assert cols.value.0 == x;
    assert cols.value.1 == y[..|x|];
  }
}

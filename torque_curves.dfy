/** The curves the estimating calculator samples over its magnetic-torque axis
    (speed, current, output power and efficiency against torque), and how they
    meet the measurement the constants were fitted to. */
module TorqueCurves {
  import opened RealArith
  import opened Measurement
  import opened Estimation
  import opened Characteristics
  import opened Sampling

  /** The magnetic torque axis: linspace(0, 1, N) stretched from the friction
      torque to the maximum magnetic torque, taken as stall current times KM. */
  function MagTorques(m: Motor, Ua: real, N: nat): (Tmag: seq<real>)
    requires m.Ra != 0.0
    ensures |Tmag| == N
    ensures N == 1 ==> Tmag == [m.Tf]
    ensures N != 1 ==> Tmag == Grid(m.Tf, MaxMagTorque(m, Ua), N)
  {
    var Tmagmax := StallCurrent(m, Ua) * m.KM;
    var Tmag := Stretch(m.Tf, Tmagmax, Linspace01(N));
    assert Tmagmax == MaxMagTorque(m, Ua);
    assert N != 1 ==> Tmag == Grid(m.Tf, MaxMagTorque(m, Ua), N) by {
      if N != 1 {
        StretchedLinspaceIsGrid(m.Tf, Tmagmax, N);
      }
    }
    Tmag
  }

  /** The measurable output torque: magnetic torque less friction torque. */
  function OutputTorques(Tmag: seq<real>, Tf: real): (Tout: seq<real>)
    ensures |Tout| == |Tmag|
    ensures forall i :: 0 <= i < |Tmag| ==> Tout[i] + Tf == Tmag[i]
  {
    seq(|Tmag|, i requires 0 <= i < |Tmag| => Tmag[i] - Tf)
  }

  /** Mechanical output power: speed times output torque, entry by entry. */
  function Powers(w: seq<real>, Tout: seq<real>): (Pm: seq<real>)
    requires |w| == |Tout|
    ensures |Pm| == |w|
    ensures forall i :: 0 <= i < |w| && (w[i] == 0.0 || Tout[i] == 0.0) ==> Pm[i] == 0.0
  {
    seq(|w|, i requires 0 <= i < |w| => w[i] * Tout[i])
  }

  // ---------------------------------------------------------------------------
  // Properties of the sampled curves

  /** The ends of the curves: the torque axis runs from Tf to the maximum
      magnetic torque, the output torque from 0 to the stall output torque, the
      speed from the no-load speed to 0, the current from the no-load current
      to the stall current, and the output power is 0 at both ends. */
  lemma CurveEnds(m: Motor, Ua: real, N: nat)
    requires m.Ra != 0.0 && m.KM != 0.0 && m.KF != 0.0 && N >= 2
    ensures var Tmag := MagTorques(m, Ua, N);
      Tmag[0] == m.Tf && Tmag[N - 1] == MaxMagTorque(m, Ua)
    ensures var Tout := OutputTorques(MagTorques(m, Ua, N), m.Tf);
      Tout[0] == 0.0 && Tout[N - 1] == MaxMagTorque(m, Ua) - m.Tf
    ensures var w := Speeds(m, Ua, MagTorques(m, Ua, N));
      w[0] == NoLoadSpeed(m, Ua) && w[N - 1] == 0.0
    ensures var I := Currents(m, MagTorques(m, Ua, N));
      I[0] == NoLoadCurrent(m) && I[N - 1] == StallCurrent(m, Ua)
    ensures var Tmag := MagTorques(m, Ua, N);
      var Pm := Powers(Speeds(m, Ua, Tmag), OutputTorques(Tmag, m.Tf));
      Pm[0] == 0.0 && Pm[N - 1] == 0.0
  {
    var Tmag := MagTorques(m, Ua, N);
    var I := Currents(m, Tmag);
    assert m.KM * I[N - 1] == m.KM * StallCurrent(m, Ua);
  }

  /** The torque axis is strictly increasing when the maximum magnetic torque
      exceeds the friction torque. */
  lemma MagTorquesIncreasing(m: Motor, Ua: real, N: nat)
    requires m.Ra != 0.0 && N >= 2 && MaxMagTorque(m, Ua) > m.Tf
    ensures forall i, j :: 0 <= i < j < N ==> MagTorques(m, Ua, N)[i] < MagTorques(m, Ua, N)[j]
  {
    GridIncreasing(m.Tf, MaxMagTorque(m, Ua), N);
  }

  /** The speed falls strictly along the axis. */
  lemma SpeedCurveDecreasing(m: Motor, Ua: real, N: nat)
    requires Physical(m) && N >= 2 && MaxMagTorque(m, Ua) > m.Tf
    ensures var w := Speeds(m, Ua, MagTorques(m, Ua, N));
      forall i, j :: 0 <= i < j < N ==> w[j] < w[i]
  {
    var Tmag := MagTorques(m, Ua, N);
    var w := Speeds(m, Ua, Tmag);
    MagTorquesIncreasing(m, Ua, N);
    forall i, j | 0 <= i < j < N
      ensures w[j] < w[i]
    {
      SpeedDecreasing(m, Ua, Tmag[i], Tmag[j]);
    }
  }

  /** The current rises strictly along the axis. */
  lemma CurrentCurveIncreasing(m: Motor, Ua: real, N: nat)
    requires Physical(m) && N >= 2 && MaxMagTorque(m, Ua) > m.Tf
    ensures var I := Currents(m, MagTorques(m, Ua, N));
      forall i, j :: 0 <= i < j < N ==> I[i] < I[j]
  {
    var Tmag := MagTorques(m, Ua, N);
    var I := Currents(m, Tmag);
    MagTorquesIncreasing(m, Ua, N);
    forall i, j | 0 <= i < j < N
      ensures I[i] < I[j]
    {
      CurrentIncreasing(m, Tmag[i], Tmag[j]);
    }
  }

  /** The output power is positive strictly between no load and stall. */
  lemma PowerCurvePositive(m: Motor, Ua: real, N: nat)
    requires Physical(m) && N >= 2 && m.Tf < MaxMagTorque(m, Ua)
    ensures var Tmag := MagTorques(m, Ua, N);
      var Pm := Powers(Speeds(m, Ua, Tmag), OutputTorques(Tmag, m.Tf));
      forall i :: 0 < i < N - 1 ==> Pm[i] > 0.0
  {
    var Tmag := MagTorques(m, Ua, N);
    var w := Speeds(m, Ua, Tmag);
    var Tout := OutputTorques(Tmag, m.Tf);
    var Pm := Powers(w, Tout);
    MagTorquesIncreasing(m, Ua, N);
    forall i | 0 < i < N - 1
      ensures Pm[i] > 0.0
    {
      assert Tmag[0] < Tmag[i] < Tmag[N - 1];
      SpeedPositiveBelowStall(m, Ua, Tmag[i]);
      ProductPositive(w[i], Tout[i]);
    }
  }

  /** No output power sample exceeds the maximum mechanical power. */
  lemma PowerCurveBounded(m: Motor, Ua: real, N: nat)
    requires Physical(m) && N >= 2 && m.Tf <= MaxMagTorque(m, Ua)
    ensures var Tmag := MagTorques(m, Ua, N);
      var Pm := Powers(Speeds(m, Ua, Tmag), OutputTorques(Tmag, m.Tf));
      forall i :: 0 <= i < N ==> Pm[i] <= MaxPower(m, Ua)
  {
    var Tmag := MagTorques(m, Ua, N);
    var Pm := Powers(Speeds(m, Ua, Tmag), OutputTorques(Tmag, m.Tf));
    GridWithin(m.Tf, MaxMagTorque(m, Ua), N);
    forall i | 0 <= i < N
      ensures Pm[i] <= MaxPower(m, Ua)
    {
      OutputPowerBound(m, Ua, Tmag[i]);
    }
  }

  /** At a magnetic torque on the working range the output power is at most the
      power counted on the magnetic torque, which is at most MaxPower. */
  lemma OutputPowerBound(m: Motor, Ua: real, T: real)
    requires Physical(m) && m.Tf <= T <= MaxMagTorque(m, Ua)
    ensures Speed(m, Ua, T) * (T - m.Tf) <= MaxPower(m, Ua)
  {
    var w := Speed(m, Ua, T);
    assert w >= 0.0 by {
      if T < MaxMagTorque(m, Ua) {
        SpeedPositiveBelowStall(m, Ua, T);
      }
    }
    ScaleMonotone(w, T - m.Tf, T);
    PowerBound(m, Ua, T);
  }

  /** With friction, the efficiency is 0 at both ends of the axis and lies
      between 0 and KM/KF everywhere on it. */
  lemma EfficiencyCurve(m: Motor, Ua: real, N: nat)
    requires Physical(m) && Ua > 0.0 && N >= 2 && 0.0 < m.Tf <= MaxMagTorque(m, Ua)
    ensures forall i :: 0 <= i < N ==> MagTorques(m, Ua, N)[i] > 0.0
    ensures var h := Efficiencies(m, Ua, MagTorques(m, Ua, N));
      h[0] == 0.0 && h[N - 1] == 0.0
      && (forall i :: 0 <= i < N ==> 0.0 <= h[i] <= m.KM / m.KF)
  {
    var Tmag := MagTorques(m, Ua, N);
    GridWithin(m.Tf, MaxMagTorque(m, Ua), N);
    var h := Efficiencies(m, Ua, Tmag);
    EfficiencyZeroAtEnds(m, Ua);
    forall i | 0 <= i < N
      ensures 0.0 <= h[i] <= m.KM / m.KF
    {
      EfficiencyRange(m, Ua, Tmag[i]);
    }
  }

  /** No efficiency sample exceeds the maximum efficiency (KM/KF)*(1 - s)^2. */
  lemma EfficiencyCurveBelowMax(m: Motor, Ua: real, N: nat, s: real)
    requires Physical(m) && Ua > 0.0 && N >= 2 && 0.0 < m.Tf <= MaxMagTorque(m, Ua)
    requires s >= 0.0 && s * s == (m.Ra * m.Tf) / (Ua * m.KM)
    ensures forall i :: 0 <= i < N ==> MagTorques(m, Ua, N)[i] > 0.0
    ensures forall i :: 0 <= i < N ==>
      Efficiencies(m, Ua, MagTorques(m, Ua, N))[i] <= MaxEfficiency(m, Ua, s)
  {
    var Tmag := MagTorques(m, Ua, N);
    GridWithin(m.Tf, MaxMagTorque(m, Ua), N);
    forall i | 0 <= i < N
      ensures Efficiencies(m, Ua, Tmag)[i] <= MaxEfficiency(m, Ua, s)
    {
      EfficiencyBound(m, Ua, Tmag[i], s);
    }
  }

  // ---------------------------------------------------------------------------
  // The curves against the measurement

  /** With the constants fitted to a motor-shaft measurement and its own voltage,
      the output torque runs from 0 to the measured stall torque, the speed
      from the measured no-load speed to 0, and the current from the measured
      no-load current to the measured stall current. */
  lemma CurvesThroughMeasurements(mn: MeasurementEntry, N: nat)
    requires Estimable(mn) && mn.U != 0.0 && N >= 2
    ensures var c := Estimate(mn).Constants();
      var Tmag := MagTorques(c, mn.U, N);
      OutputTorques(Tmag, c.Tf)[0] == 0.0 && OutputTorques(Tmag, c.Tf)[N - 1] == mn.Tmax
      && Speeds(c, mn.U, Tmag)[0] == mn.wmax && Speeds(c, mn.U, Tmag)[N - 1] == 0.0
      && Currents(c, Tmag)[0] == mn.I0 && Currents(c, Tmag)[N - 1] == mn.Imax
  {
    var c := Estimate(mn).Constants();
    FitReproducesCurrents(mn);
    FitReproducesNoLoadSpeed(mn);
    CurveEnds(c, mn.U, N);
  }
}

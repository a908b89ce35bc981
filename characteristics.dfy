/** The steady-state model of a brushed DC motor with a constant internal
    friction torque. At magnetic torque T and armature voltage Va the motor
    obeys the voltage equation Va == KF*w + Ra*I and the torque equation
    T == KM*I; speed, current, power and efficiency all follow from these. */
module Characteristics {
  import opened RealArith

  /** Motor constants: armature resistance Ra (ohm), torque constant KM (Nm/A),
      back-EMF constant KF (Vs/rad) and friction torque Tf (Nm). */
  datatype Motor = Motor(Ra: real, KM: real, KF: real, Tf: real)

  /** Constants a real motor can have. */
  predicate Physical(m: Motor) {
    m.Ra > 0.0 && m.KM > 0.0 && m.KF > 0.0 && m.Tf >= 0.0
  }

  // ---------------------------------------------------------------------------
  // The characteristic at one operating point

  /** Armature current that produces magnetic torque T. */
  function Current(m: Motor, T: real): (i: real)
    requires m.KM != 0.0
    ensures m.KM * i == T
  {
    T / m.KM
  }

  /** Angular speed at magnetic torque T: the torque-to-speed characteristic. */
  function Speed(m: Motor, Va: real, T: real): (w: real)
    requires m.KF != 0.0 && m.KM != 0.0
    ensures Va == m.KF * w + m.Ra * Current(m, T)
  {
    Va / m.KF - (m.Ra * T) / (m.KF * m.KM)
  }

  /** Magnetic torque at angular speed w: the speed-to-torque characteristic. */
  function TorqueAtSpeed(m: Motor, Va: real, w: real): (T: real)
    requires m.Ra != 0.0
    ensures m.KM != 0.0 ==> Va == m.KF * w + m.Ra * Current(m, T)
  {
    var T := (Va * m.KM) / m.Ra - (m.KF * m.KM * w) / m.Ra;
    assert m.Ra * T == Va * m.KM - m.KF * m.KM * w;
    T
  }

  /** Mechanical power at magnetic torque T, counted on the magnetic torque. */
  function PowerAt(m: Motor, Va: real, T: real): (p: real)
    requires m.KF != 0.0 && m.KM != 0.0
    ensures p == Speed(m, Va, T) * T
  {
    (Va / m.KF - (T * m.Ra) / (m.KF * m.KM)) * T
  }

  /** Efficiency at magnetic torque T. */
  function Efficiency(m: Motor, Va: real, T: real): (h: real)
    requires m.KF != 0.0 && Va != 0.0 && m.KM != 0.0 && T != 0.0
    // output power over input power
    ensures h * (Va * Current(m, T)) == Speed(m, Va, T) * (T - m.Tf)
  {
    var h := (m.KM / m.KF) * (1.0 - (m.Ra * T) / (Va * m.KM)) * (1.0 - m.Tf / T);
    EfficiencyIsPowerRatio(m, Va, T, h);
    h
  }

  lemma EfficiencyIsPowerRatio(m: Motor, Va: real, T: real, h: real)
    requires m.KF != 0.0 && Va != 0.0 && m.KM != 0.0 && T != 0.0
    requires h == (m.KM / m.KF) * (1.0 - (m.Ra * T) / (Va * m.KM)) * (1.0 - m.Tf / T)
    ensures h * (Va * Current(m, T)) == Speed(m, Va, T) * (T - m.Tf)
  {
    var u := (m.Ra * T) / (Va * m.KM);
    var w := Speed(m, Va, T);
    assert Va * u == m.Ra * Current(m, T) by {
      assert u * (Va * m.KM) == m.Ra * T;
      assert m.Ra * T == m.Ra * Current(m, T) * m.KM;
    }
    assert m.KF * w == Va * (1.0 - u);
    assert (1.0 - m.Tf / T) * T == T - m.Tf;
    assert Current(m, T) * m.KM == T;
    calc {
      h * (Va * Current(m, T));
      (m.KM / m.KF) * (1.0 - u) * (1.0 - m.Tf / T) * (Va * Current(m, T));
      ((1.0 - u) * Va / m.KF) * ((1.0 - m.Tf / T) * (Current(m, T) * m.KM));
      w * (T - m.Tf);
    }
  }

  // ---------------------------------------------------------------------------
  // Summary scalars

  /** Current at standstill, limited by the armature resistance alone. */
  function StallCurrent(m: Motor, Va: real): (i: real)
    requires m.Ra != 0.0
    ensures m.Ra * i == Va
  {
    Va / m.Ra
  }

  /** Maximum magnetic torque: the torque of the stall current. */
  function MaxMagTorque(m: Motor, Va: real): (T: real)
    requires m.Ra != 0.0
    ensures T == StallCurrent(m, Va) * m.KM
    ensures m.KF != 0.0 && m.KM != 0.0 ==> Speed(m, Va, T) == 0.0
  {
    (Va * m.KM) / m.Ra
  }

  /** Maximum angular speed without friction: the speed at zero magnetic torque. */
  function IdealNoLoadSpeed(m: Motor, Va: real): (w: real)
    requires m.KF != 0.0
    ensures m.KF * w == Va
    ensures m.KM != 0.0 ==> w == Speed(m, Va, 0.0)
  {
    Va / m.KF
  }

  /** Maximum angular speed with friction: the speed at which the magnetic torque
      just balances the friction torque, that is, at zero output torque. */
  function NoLoadSpeed(m: Motor, Va: real): (w: real)
    requires m.KF != 0.0 && m.KM != 0.0
    ensures w == Speed(m, Va, m.Tf)
  {
    Va / m.KF - (m.Tf * m.Ra) / (m.KF * m.KM)
  }

  /** No-load armature current: the current that overcomes friction alone. */
  function NoLoadCurrent(m: Motor): (i: real)
    requires m.KM != 0.0
    ensures i == Current(m, m.Tf)
  {
    m.Tf / m.KM
  }

  /** Torque-to-current coefficient. */
  function TorqueToCurrent(m: Motor): (k: real)
    requires m.KM != 0.0
    ensures k * m.KM == 1.0
  {
    1.0 / m.KM
  }

  /** Voltage-to-speed coefficient at no load. */
  function VoltageToSpeed(m: Motor): (k: real)
    requires m.KF != 0.0
    ensures k * m.KF == 1.0
  {
    1.0 / m.KF
  }

  /** Magnitude of the slope of the speed-torque line. */
  function SpeedTorqueSlope(m: Motor): (k: real)
    requires m.KF != 0.0 && m.KM != 0.0
    ensures k * (m.KF * m.KM) == m.Ra
  {
    m.Ra / (m.KF * m.KM)
  }

  /** Maximum mechanical power: Va^2*KM/(4*KF*Ra). */
  function MaxPower(m: Motor, Va: real): (p: real)
    requires m.KF != 0.0 && m.Ra != 0.0
    // reached at half the maximum magnetic torque
    ensures m.KM != 0.0 ==> PowerAt(m, Va, MaxMagTorque(m, Va) / 2.0) == p
  {
    var p := (Va * Va * m.KM) / (4.0 * m.KF * m.Ra);
    MaxPowerAttained(m, Va, p);
    p
  }

  lemma MaxPowerAttained(m: Motor, Va: real, p: real)
    requires m.KF != 0.0 && m.Ra != 0.0
    requires p == (Va * Va * m.KM) / (4.0 * m.KF * m.Ra)
    ensures m.KM != 0.0 ==> PowerAt(m, Va, MaxMagTorque(m, Va) / 2.0) == p
  {
    if m.KM == 0.0 { return; }
    var T := MaxMagTorque(m, Va) / 2.0;
    var w := Speed(m, Va, T);
    assert m.Ra * T * 2.0 == Va * m.KM;
    assert m.KF * w == Va / 2.0 by {
      assert m.Ra * Current(m, T) * m.KM == m.Ra * T;
      assert m.Ra * Current(m, T) == Va / 2.0;
    }
    assert p * (4.0 * m.KF * m.Ra) == Va * Va * m.KM;
    assert (w * T) * (4.0 * m.KF * m.Ra) == (m.KF * w * 2.0) * (m.Ra * T * 2.0);
  }

  /** Maximum angular acceleration from standstill of a rotor of inertia J. */
  function MaxAngularAccel(m: Motor, Va: real, J: real): (alpha: real)
    requires m.Ra != 0.0 && J != 0.0
    ensures J * alpha == MaxMagTorque(m, Va) - m.Tf
  {
    (MaxMagTorque(m, Va) - m.Tf) / J
  }

  /** Maximum efficiency (KM/KF)*(1 - s)^2, where s is the square root of
      Ra*Tf/(Va*KM), passed in as a witness since real square roots are not
      expressible here. */
  function MaxEfficiency(m: Motor, Va: real, s: real): (h: real)
    requires m.KF != 0.0 && Va != 0.0 && m.KM != 0.0
    requires s >= 0.0 && s * s == (m.Ra * m.Tf) / (Va * m.KM)
    ensures m.KM / m.KF > 0.0 ==> h >= 0.0
  {
    (m.KM / m.KF) * (1.0 - s) * (1.0 - s)
  }

  // ---------------------------------------------------------------------------
  // Properties of the characteristic

  /** The torque-to-speed and speed-to-torque characteristics are inverse maps. */
  lemma SpeedTorqueInverse(m: Motor, Va: real, w: real, T: real)
    requires m.Ra != 0.0 && m.KM != 0.0 && m.KF != 0.0
    ensures Speed(m, Va, TorqueAtSpeed(m, Va, w)) == w
    ensures TorqueAtSpeed(m, Va, Speed(m, Va, T)) == T
  {
    var T' := TorqueAtSpeed(m, Va, w);
    var w' := Speed(m, Va, T');
    assert m.KF * w' == m.KF * w;
    var w2 := Speed(m, Va, T);
    var T2 := TorqueAtSpeed(m, Va, w2);
    assert m.Ra * Current(m, T2) == m.Ra * Current(m, T);
    assert Current(m, T2) == Current(m, T);
    assert m.KM * Current(m, T2) == m.KM * Current(m, T);
  }

  /** The speed falls linearly with the magnetic torque, at slope SpeedTorqueSlope. */
  lemma SpeedLine(m: Motor, Va: real, T1: real, T2: real)
    requires m.KF != 0.0 && m.KM != 0.0
    ensures Speed(m, Va, T1) - Speed(m, Va, T2) == SpeedTorqueSlope(m) * (T2 - T1)
  {
    var k := SpeedTorqueSlope(m);
    assert (m.Ra * T2) / (m.KF * m.KM) == k * T2;
    assert (m.Ra * T1) / (m.KF * m.KM) == k * T1;
  }

  lemma SlopePositive(m: Motor)
    requires m.Ra > 0.0 && m.KM > 0.0 && m.KF > 0.0
    ensures SpeedTorqueSlope(m) > 0.0
  {
    assert m.KF * m.KM > 0.0;
  }

  /** Speed is strictly decreasing in the magnetic torque. */
  lemma SpeedDecreasing(m: Motor, Va: real, T1: real, T2: real)
    requires Physical(m) && T1 < T2
    ensures Speed(m, Va, T2) < Speed(m, Va, T1)
  {
    SpeedLine(m, Va, T1, T2);
    SlopePositive(m);
    assert SpeedTorqueSlope(m) * (T2 - T1) > 0.0;
  }

  /** Current is strictly increasing in the magnetic torque. */
  lemma CurrentIncreasing(m: Motor, T1: real, T2: real)
    requires m.KM > 0.0 && T1 < T2
    ensures Current(m, T1) < Current(m, T2)
  {
    assert m.KM * (Current(m, T2) - Current(m, T1)) == T2 - T1;
  }

  /** Below the maximum magnetic torque the motor turns forward. */
  lemma SpeedPositiveBelowStall(m: Motor, Va: real, T: real)
    requires Physical(m) && T < MaxMagTorque(m, Va)
    ensures Speed(m, Va, T) > 0.0
  {
    SpeedDecreasing(m, Va, T, MaxMagTorque(m, Va));
  }

  /** Friction lowers the no-load speed below the ideal one, and strictly so
      exactly when there is friction. */
  lemma NoLoadBelowIdeal(m: Motor, Va: real)
    requires Physical(m)
    ensures NoLoadSpeed(m, Va) <= IdealNoLoadSpeed(m, Va)
    ensures NoLoadSpeed(m, Va) == IdealNoLoadSpeed(m, Va) <==> m.Tf == 0.0
  {
    SpeedLine(m, Va, 0.0, m.Tf);
    SlopePositive(m);
    if m.Tf > 0.0 {
      assert SpeedTorqueSlope(m) * m.Tf > 0.0;
    }
  }

  /** The power at any torque is at most MaxPower: completing the square gives
      MaxPower - PowerAt(T) == SpeedTorqueSlope*(T - MaxMagTorque/2)^2. */
  lemma PowerBound(m: Motor, Va: real, T: real)
    requires m.Ra > 0.0 && m.KM > 0.0 && m.KF > 0.0
    ensures PowerAt(m, Va, T) <= MaxPower(m, Va)
  {
    var k := SpeedTorqueSlope(m);
    var w0 := IdealNoLoadSpeed(m, Va);
    var Th := MaxMagTorque(m, Va) / 2.0;
    SlopePositive(m);
    SpeedLine(m, Va, 0.0, T);
    SpeedLine(m, Va, 0.0, Th);
    SpeedLine(m, Va, 0.0, 2.0 * Th);
    CompletedSquare(w0, k, Th, T);
  }

  /** (w0 - k*T)*T is largest at T = Th when w0 == 2*k*Th and k >= 0. */
  lemma CompletedSquare(w0: real, k: real, Th: real, T: real)
    requires k >= 0.0 && w0 == 2.0 * k * Th
    ensures (w0 - k * T) * T <= (w0 - k * Th) * Th
  {
    var d := T - Th;
    assert (w0 - k * Th) * Th - (w0 - k * T) * T == k * (d * d);
    SquareNonNegative(d);
    ProductNonNegative(k, d * d);
  }

  lemma EfficiencyFactors(m: Motor, Va: real, T: real)
    requires m.KF != 0.0 && Va != 0.0 && m.KM != 0.0 && T != 0.0
    ensures Efficiency(m, Va, T) == (m.KM / m.KF) * ((1.0 - (m.Ra * T) / (Va * m.KM)) * (1.0 - m.Tf / T))
  {
  }

  /** On the working range from friction torque to maximum magnetic torque the
      efficiency lies between 0 and KM/KF. */
  lemma EfficiencyRange(m: Motor, Va: real, T: real)
    requires Physical(m) && Va > 0.0 && T > 0.0
    requires m.Tf <= T <= MaxMagTorque(m, Va)
    ensures 0.0 <= Efficiency(m, Va, T) <= m.KM / m.KF
  {
    var u := (m.Ra * T) / (Va * m.KM);
    var f := 1.0 - m.Tf / T;
    var k := m.KM / m.KF;
    assert Va * m.KM > 0.0;
    assert 0.0 <= u <= 1.0 by {
      assert u * (Va * m.KM) == m.Ra * T;
      assert m.Ra * T <= Va * m.KM by {
        assert m.Ra * MaxMagTorque(m, Va) == Va * m.KM;
      }
    }
    assert 0.0 <= f <= 1.0 by {
      assert (m.Tf / T) * T == m.Tf;
      assert m.Tf / T >= 0.0;
      assert m.Tf / T <= 1.0;
    }
    assert k > 0.0;
    var g := (1.0 - u) * f;
    ProductInUnit(1.0 - u, f);
    assert 0.0 <= g <= 1.0;
    EfficiencyFactors(m, Va, T);
    assert Efficiency(m, Va, T) == k * g;
    assert k * g <= k by {
      assert k - k * g == k * (1.0 - g);
      ProductNonNegative(k, 1.0 - g);
    }
    ProductNonNegative(k, g);
  }

  /** MaxEfficiency bounds the efficiency at every positive torque: with
      u = Ra*T/(Va*KM) and s*s = Ra*Tf/(Va*KM), the gap is k*(u - s)^2/u. */
  lemma EfficiencyBound(m: Motor, Va: real, T: real, s: real)
    requires Physical(m) && Va > 0.0 && T > 0.0
    requires s >= 0.0 && s * s == (m.Ra * m.Tf) / (Va * m.KM)
    ensures Efficiency(m, Va, T) <= MaxEfficiency(m, Va, s)
  {
    var k := m.KM / m.KF;
    var u := (m.Ra * T) / (Va * m.KM);
    EfficiencyInLoad(m, Va, T, s);
    assert u > 0.0 by {
      assert Va * m.KM > 0.0;
    }
    LoadGap(u, s);
    ScaleMonotone(k, (1.0 - u) * (1.0 - s * s / u), (1.0 - s) * (1.0 - s));
    assert Efficiency(m, Va, T) <= k * ((1.0 - s) * (1.0 - s));
    assert MaxEfficiency(m, Va, s) == k * ((1.0 - s) * (1.0 - s));
  }

  /** The efficiency written in the load fraction u = Ra*T/(Va*KM). */
  lemma EfficiencyInLoad(m: Motor, Va: real, T: real, s: real)
    requires Physical(m) && Va > 0.0 && T > 0.0
    requires s >= 0.0 && s * s == (m.Ra * m.Tf) / (Va * m.KM)
    ensures var u := (m.Ra * T) / (Va * m.KM);
      u != 0.0 && Efficiency(m, Va, T) == (m.KM / m.KF) * ((1.0 - u) * (1.0 - s * s / u))
  {
    var a := m.Ra / (Va * m.KM);
    var u := (m.Ra * T) / (Va * m.KM);
    var x := s * s;
    assert Va * m.KM > 0.0;
    assert a > 0.0;
    assert u == a * T;
    assert x == a * m.Tf;
    assert u > 0.0;
    assert m.Tf / T == x / u by {
      assert (x / u) * T == m.Tf by {
        assert x / u * u == x;
        assert x / u * (a * T) == a * m.Tf;
      }
    }
    EfficiencyFactors(m, Va, T);
  }

  /** (1 - u)*(1 - s^2/u) falls short of (1 - s)^2 by (u - s)^2/u. */
  lemma LoadGap(u: real, s: real)
    requires u > 0.0
    ensures (1.0 - u) * (1.0 - s * s / u) <= (1.0 - s) * (1.0 - s)
  {
    var x := s * s;
    var q := (u - s) * (u - s);
    assert (1.0 - u) * (1.0 - x / u) == 1.0 - u - x / u + x by {
      assert u * (x / u) == x;
    }
    assert q / u == u - 2.0 * s + x / u by {
      assert q == u * u - 2.0 * s * u + x;
      assert (u * u) / u == u;
      assert (2.0 * s * u) / u == 2.0 * s;
    }
    SquareNonNegative(u - s);
    assert q / u >= 0.0;
  }

  /** The maximum efficiency is reached at magnetic torque s*Va*KM/Ra. */
  lemma EfficiencyMaxAttained(m: Motor, Va: real, s: real)
    requires Physical(m) && Va > 0.0
    requires s > 0.0 && s * s == (m.Ra * m.Tf) / (Va * m.KM)
    ensures Efficiency(m, Va, s * Va * m.KM / m.Ra) == MaxEfficiency(m, Va, s)
  {
    var T := s * Va * m.KM / m.Ra;
    var a := m.Ra / (Va * m.KM);
    assert Va * m.KM > 0.0;
    assert a > 0.0;
    assert T * m.Ra == s * Va * m.KM;
    assert T > 0.0;
    assert a * T == s by {
      assert a * (Va * m.KM) == m.Ra;
      assert a * T * m.Ra == a * (s * Va * m.KM);
    }
    assert (m.Ra * T) / (Va * m.KM) == s;
    assert s * s == a * m.Tf;
    assert m.Tf / T == s by {
      assert (m.Tf / T) * (a * T) == a * m.Tf;
      assert (m.Tf / T) * s == s * s;
    }
    EfficiencyFactors(m, Va, T);
  }

  /** The efficiency vanishes at both ends of the working range: at the friction
      torque (no output torque) and at the maximum magnetic torque (no speed). */
  lemma EfficiencyZeroAtEnds(m: Motor, Va: real)
    requires m.KF != 0.0 && Va != 0.0 && m.KM != 0.0 && m.Ra != 0.0
    ensures m.Tf != 0.0 ==> Efficiency(m, Va, m.Tf) == 0.0
    ensures Efficiency(m, Va, MaxMagTorque(m, Va)) == 0.0
  {
    var T := MaxMagTorque(m, Va);
    assert m.Ra * T == Va * m.KM;
    assert Va * m.KM != 0.0;
    SelfQuotient(Va * m.KM);
    assert (m.Ra * T) / (Va * m.KM) == 1.0;
    EfficiencyFactors(m, Va, T);
    if m.Tf != 0.0 {
      assert m.Tf / m.Tf == 1.0;
      EfficiencyFactors(m, Va, m.Tf);
    }
  }

  /** How the summary coefficients relate to the summary scalars. */
  lemma CoefficientRelations(m: Motor, Va: real)
    requires m.KF != 0.0 && m.KM != 0.0
    ensures NoLoadCurrent(m) == m.Tf * TorqueToCurrent(m)
    ensures VoltageToSpeed(m) * Va == IdealNoLoadSpeed(m, Va)
    ensures SpeedTorqueSlope(m) == m.Ra * VoltageToSpeed(m) * TorqueToCurrent(m)
    ensures NoLoadSpeed(m, Va) == IdealNoLoadSpeed(m, Va) - SpeedTorqueSlope(m) * m.Tf
  {
    SpeedLine(m, Va, 0.0, m.Tf);
    assert NoLoadCurrent(m) * m.KM == m.Tf;
    assert SpeedTorqueSlope(m) * (m.KF * m.KM) == m.Ra * VoltageToSpeed(m) * TorqueToCurrent(m) * (m.KF * m.KM);
  }

  /** The motor accelerates from standstill when its stall torque exceeds friction. */
  lemma AccelPositive(m: Motor, Va: real, J: real)
    requires m.Ra != 0.0 && J > 0.0 && MaxMagTorque(m, Va) > m.Tf
    ensures MaxAngularAccel(m, Va, J) > 0.0
  {
  }

  // ---------------------------------------------------------------------------
  // Characteristics sampled along a magnetic-torque axis

  /** Speed at each torque of the axis. */
  function Speeds(m: Motor, Va: real, Ts: seq<real>): (ws: seq<real>)
    requires m.KF != 0.0 && m.KM != 0.0
    ensures |ws| == |Ts|
    ensures forall i :: 0 <= i < |Ts| ==> Va == m.KF * ws[i] + m.Ra * Current(m, Ts[i])
  {
    seq(|Ts|, i requires 0 <= i < |Ts| => Speed(m, Va, Ts[i]))
  }

  /** Current at each torque of the axis. */
  function Currents(m: Motor, Ts: seq<real>): (cs: seq<real>)
    requires m.KM != 0.0
    ensures |cs| == |Ts|
    ensures forall i :: 0 <= i < |Ts| ==> m.KM * cs[i] == Ts[i]
  {
    seq(|Ts|, i requires 0 <= i < |Ts| => Current(m, Ts[i]))
  }

  predicate NonZero(Ts: seq<real>) {
    forall i :: 0 <= i < |Ts| ==> Ts[i] != 0.0
  }

  /** Efficiency at each torque of the axis. */
  function Efficiencies(m: Motor, Va: real, Ts: seq<real>): (hs: seq<real>)
    requires m.KF != 0.0 && Va != 0.0 && m.KM != 0.0 && NonZero(Ts)
    ensures |hs| == |Ts|
    ensures forall i :: 0 <= i < |Ts| ==>
      hs[i] * (Va * Current(m, Ts[i])) == Speed(m, Va, Ts[i]) * (Ts[i] - m.Tf)
  {
    seq(|Ts|, i requires 0 <= i < |Ts| => Efficiency(m, Va, Ts[i]))
  }
}

/** Estimation of the motor constants from a measurement referred to the motor
    shaft, and what the fitted constants reproduce of that measurement. */
module Estimation {
  import opened RealArith
  import opened Measurement
  import opened Characteristics

  /** Every quantity the estimation computes, in the order it computes them:
      the armature resistance, three speed-torque slopes (load point from
      no-load, load point to stall, no-load to stall), two torque-current
      slopes (load point, stall), and the constants built on the stall-based
      slopes. */
  datatype Estimates = Estimates(
    Ra: real,     // armature resistance
    dwdT1: real,  // speed-torque slope from the no-load point to the load point
    dwdT2: real,  // speed-torque slope from the load point to the stall point
    dwdT: real,   // speed-torque slope from the no-load point to the stall point
    dTdI1: real,  // torque-current slope up to the load point
    KM: real,     // torque-current slope up to the stall point, taken as torque constant
    Tf: real,     // friction torque
    wmax0: real,  // no-load speed extrapolated back to zero magnetic torque
    KF: real      // back-EMF constant
  ) {
    /** The motor constants the curves are computed from. */
    function Constants(): Motor {
      Motor(Ra, KM, KF, Tf)
    }
  }

  /** The divisions the estimation performs are all defined. A zero no-load
      speed is excluded because it makes the back-extrapolated speed zero. */
  predicate Estimable(mn: MeasurementEntry) {
    mn.Imax != 0.0 && mn.Tr != 0.0 && mn.Tmax != mn.Tr && mn.Tmax != 0.0
    && mn.Ir != mn.I0 && mn.Imax != mn.I0 && mn.wmax != 0.0
  }

  /** The estimation, one formula after the other. */
  function Estimate(mn: MeasurementEntry): (e: Estimates)
    requires Estimable(mn)
    // Ohm's law at standstill
    ensures e.Ra * mn.Imax == mn.U
    // the three speed-torque slopes and the load-point torque-current slope
    ensures e.dwdT1 * mn.Tr == mn.wr - mn.wmax
    ensures e.dwdT2 * (mn.Tmax - mn.Tr) == -mn.wr
    ensures e.dwdT * mn.Tmax == -mn.wmax
    ensures e.dTdI1 * (mn.Ir - mn.I0) == mn.Tr
    // the measured stall torque is the magnetic torque beyond the no-load current
    ensures e.KM * (mn.Imax - mn.I0) == mn.Tmax
    ensures e.Tf * (mn.Imax - mn.I0) == mn.Tmax * mn.I0
    // the back-extrapolation in closed form
    ensures e.wmax0 == mn.wmax * (1.0 + e.Tf / mn.Tmax)
    ensures e.wmax0 * (mn.Imax - mn.I0) == mn.wmax * mn.Imax
    // the supply voltage is all back-EMF at the ideal no-load speed
    ensures e.KF * e.wmax0 == mn.U
  {
    var Ua := mn.U;
    var Ra := Ua / mn.Imax;
    var dwdT1 := (mn.wr - mn.wmax) / mn.Tr;
    var dwdT2 := -mn.wr / (mn.Tmax - mn.Tr);
    var dwdT := -mn.wmax / mn.Tmax;
    var dTdI1 := mn.Tr / (mn.Ir - mn.I0);
    var dTdI := mn.Tmax / (mn.Imax - mn.I0);
    var KM := dTdI;
    var Tf := KM * mn.I0;
    var wmax0 := mn.wmax - Tf * dwdT;
    QuotientTimesDivisor(mn.wr - mn.wmax, mn.Tr);
    QuotientTimesDivisor(-mn.wr, mn.Tmax - mn.Tr);
    QuotientTimesDivisor(-mn.wmax, mn.Tmax);
    QuotientTimesDivisor(mn.Tr, mn.Ir - mn.I0);
    BackExtrapolation(mn, KM, Tf, dwdT, wmax0);
    var KF := Ua / wmax0;
    Estimates(Ra, dwdT1, dwdT2, dwdT, dTdI1, KM, Tf, wmax0, KF)
  }

  lemma BackExtrapolation(mn: MeasurementEntry, KM: real, Tf: real, dwdT: real, wmax0: real)
    requires Estimable(mn)
    requires KM == mn.Tmax / (mn.Imax - mn.I0) && Tf == KM * mn.I0
    requires dwdT == -mn.wmax / mn.Tmax && wmax0 == mn.wmax - Tf * dwdT
    ensures KM * (mn.Imax - mn.I0) == mn.Tmax
    ensures Tf * (mn.Imax - mn.I0) == mn.Tmax * mn.I0
    ensures wmax0 == mn.wmax * (1.0 + Tf / mn.Tmax)
    ensures wmax0 * (mn.Imax - mn.I0) == mn.wmax * mn.Imax
    ensures wmax0 != 0.0
  {
    var d := mn.Imax - mn.I0;
    assert Tf * d == mn.Tmax * mn.I0 by {
      assert Tf * d == KM * d * mn.I0;
    }
    assert Tf * dwdT == -(Tf / mn.Tmax) * mn.wmax;
    assert (Tf / mn.Tmax) * d == mn.I0 by {
      assert (Tf / mn.Tmax) * mn.Tmax == Tf;
      assert (Tf / mn.Tmax) * d * mn.Tmax == mn.Tmax * mn.I0;
    }
    assert wmax0 * d == mn.wmax * (d + (Tf / mn.Tmax) * d);
    assert wmax0 != 0.0 by {
      assert mn.wmax * mn.Imax != 0.0;
    }
  }

  // ---------------------------------------------------------------------------
  // Properties of the estimates

  /** A physically sensible measurement gives physically sensible constants,
      whose friction stays below the magnetic torque at stall. */
  lemma EstimatePhysical(mn: MeasurementEntry)
    requires Estimable(mn)
    requires mn.U > 0.0 && mn.Imax > mn.I0 >= 0.0 && mn.Tmax > 0.0 && mn.wmax > 0.0
    ensures Physical(Estimate(mn).Constants())
    ensures Estimate(mn).Tf < Estimate(mn).KM * mn.Imax
  {
    var e := Estimate(mn);
    PhysicalFit(e.Constants(), mn.U, mn.I0, mn.Imax, mn.Tmax, mn.wmax, e.wmax0);
  }

  lemma PhysicalFit(c: Motor, U: real, I0: real, Imax: real, Tmax: real, wmax: real, wmax0: real)
    requires U > 0.0 && Imax > I0 >= 0.0 && Tmax > 0.0 && wmax > 0.0
    requires c.Ra * Imax == U && c.KM * (Imax - I0) == Tmax && c.Tf * (Imax - I0) == Tmax * I0
    requires wmax0 * (Imax - I0) == wmax * Imax && c.KF * wmax0 == U
    ensures Physical(c) && c.Tf < c.KM * Imax
  {
    var d := Imax - I0;
    assert c.Ra > 0.0 by {
      assert c.Ra * Imax > 0.0;
    }
    assert c.KM > 0.0 by {
      assert c.KM * d > 0.0;
    }
    assert c.Tf >= 0.0 by {
      assert c.Tf * d >= 0.0;
    }
    assert wmax0 > 0.0 by {
      assert wmax0 * d > 0.0;
    }
    assert c.KF > 0.0 by {
      assert c.KF * wmax0 > 0.0;
    }
    assert c.KM * Imax - c.Tf == Tmax by {
      assert c.Tf == c.KM * I0 by {
        assert c.Tf * d == c.KM * I0 * d;
      }
    }
  }

  /** Back-extrapolation never lowers the no-load speed, and leaves it as it is
      exactly when there is no no-load current, that is, no friction. */
  lemma BackExtrapolationRaises(mn: MeasurementEntry)
    requires Estimable(mn)
    requires mn.Imax > mn.I0 >= 0.0 && mn.Tmax > 0.0 && mn.wmax > 0.0
    ensures Estimate(mn).wmax0 >= mn.wmax
    ensures Estimate(mn).wmax0 == mn.wmax <==> mn.I0 == 0.0
    ensures Estimate(mn).Tf == 0.0 <==> mn.I0 == 0.0
  {
    var e := Estimate(mn);
    var d := mn.Imax - mn.I0;
    assert e.wmax0 * d - mn.wmax * d == mn.wmax * mn.I0;
    assert e.Tf * d == mn.Tmax * mn.I0;
    if mn.I0 > 0.0 {
      assert mn.wmax * mn.I0 > 0.0;
      assert (e.wmax0 - mn.wmax) * d > 0.0;
      assert mn.Tmax * mn.I0 > 0.0;
    }
  }

  /** The rated point lies on the straight speed-torque line through the
      measured no-load point (0, wmax) and stall point (Tmax, 0). */
  predicate RatedOnSpeedLine(mn: MeasurementEntry) {
    mn.wr * mn.Tmax == mn.wmax * (mn.Tmax - mn.Tr)
  }

  /** The rated point lies on the straight torque-current line through the
      measured no-load point (I0, 0) and stall point (Imax, Tmax). */
  predicate RatedOnCurrentLine(mn: MeasurementEntry) {
    mn.Tr * (mn.Imax - mn.I0) == mn.Tmax * (mn.Ir - mn.I0)
  }

  /** The three speed-torque slopes agree exactly when the three measured points
      are collinear. */
  lemma SpeedSlopesAgree(mn: MeasurementEntry)
    requires Estimable(mn)
    ensures Estimate(mn).dwdT1 == Estimate(mn).dwdT <==> RatedOnSpeedLine(mn)
    ensures Estimate(mn).dwdT2 == Estimate(mn).dwdT <==> RatedOnSpeedLine(mn)
  {
    var e := Estimate(mn);
    assert e.dwdT1 * mn.Tr == mn.wr - mn.wmax;
    assert e.dwdT2 * (mn.Tmax - mn.Tr) == -mn.wr;
    assert e.dwdT * mn.Tmax == -mn.wmax;
    EqualRatios(mn.wr - mn.wmax, mn.Tr, -mn.wmax, mn.Tmax);
    EqualRatios(-mn.wr, mn.Tmax - mn.Tr, -mn.wmax, mn.Tmax);
  }

  /** The two torque-current slopes agree exactly when the rated point lies on
      the stall-based torque-current line. */
  lemma TorqueSlopesAgree(mn: MeasurementEntry)
    requires Estimable(mn)
    ensures Estimate(mn).dTdI1 == Estimate(mn).KM <==> RatedOnCurrentLine(mn)
  {
    EqualRatios(mn.Tr, mn.Ir - mn.I0, mn.Tmax, mn.Imax - mn.I0);
  }

  lemma EqualRatios(a: real, b: real, c: real, d: real)
    requires b != 0.0 && d != 0.0
    ensures a / b == c / d <==> a * d == c * b
  {
    assert (a / b) * b == a && (c / d) * d == c;
    if a * d == c * b {
      assert (a / b) * (b * d) == (c / d) * (b * d);
    }
  }

  // ---------------------------------------------------------------------------
  // What the output stage reproduces of the measurement

  /** The fitted constants reproduce the measured no-load and stall currents
      and the measured stall torque. */
  lemma FitReproducesCurrents(mn: MeasurementEntry)
    requires Estimable(mn) && mn.U != 0.0
    ensures var c := Estimate(mn).Constants();
      c.Ra != 0.0 && c.KM != 0.0 && c.KF != 0.0
      && NoLoadCurrent(c) == mn.I0
      && StallCurrent(c, mn.U) == mn.Imax
      && MaxMagTorque(c, mn.U) - c.Tf == mn.Tmax
  {
    var e := Estimate(mn);
    assert e.Ra != 0.0 && e.KM != 0.0 && e.KF != 0.0;
    CurrentsOfFit(e.Constants(), mn.U, mn.I0, mn.Imax, mn.Tmax);
  }

  lemma CurrentsOfFit(c: Motor, U: real, I0: real, Imax: real, Tmax: real)
    requires c.Ra != 0.0 && c.KM != 0.0 && Imax != I0
    requires c.Ra * Imax == U && c.KM * (Imax - I0) == Tmax && c.Tf * (Imax - I0) == Tmax * I0
    ensures NoLoadCurrent(c) == I0
    ensures StallCurrent(c, U) == Imax
    ensures MaxMagTorque(c, U) - c.Tf == Tmax
  {
    var d := Imax - I0;
    assert c.Tf == c.KM * I0 by {
      assert c.Tf * d == c.KM * I0 * d;
    }
    assert NoLoadCurrent(c) * c.KM == I0 * c.KM;
    assert StallCurrent(c, U) * c.Ra == Imax * c.Ra;
    assert MaxMagTorque(c, U) == Imax * c.KM;
  }

  /** The fitted constants reproduce the back-extrapolated speed and the
      measured no-load speed: the idealised line passes through the measured
      no-load point. */
  lemma FitReproducesNoLoadSpeed(mn: MeasurementEntry)
    requires Estimable(mn) && mn.U != 0.0
    ensures var c := Estimate(mn).Constants();
      c.KM != 0.0 && c.KF != 0.0
      && IdealNoLoadSpeed(c, mn.U) == Estimate(mn).wmax0
      && NoLoadSpeed(c, mn.U) == mn.wmax
  {
    var e := Estimate(mn);
    FitReproducesCurrents(mn);
    NoLoadSpeedOfFit(e.Constants(), mn.U, mn.I0, mn.Imax, mn.wmax, e.wmax0);
  }

  lemma NoLoadSpeedOfFit(c: Motor, U: real, I0: real, Imax: real, wmax: real, wmax0: real)
    requires c.KM != 0.0 && c.KF != 0.0 && Imax != 0.0
    requires c.Ra * Imax == U && c.KF * wmax0 == U && NoLoadCurrent(c) == I0
    requires wmax0 * (Imax - I0) == wmax * Imax
    ensures IdealNoLoadSpeed(c, U) == wmax0
    ensures NoLoadSpeed(c, U) == wmax
  {
    assert IdealNoLoadSpeed(c, U) * c.KF == wmax0 * c.KF;
    var w := NoLoadSpeed(c, U);
    // the voltage equation at the no-load point
    assert U == c.KF * w + c.Ra * I0;
    var d := Imax - I0;
    assert c.KF * w * Imax == U * d by {
      assert c.Ra * I0 * Imax == U * I0;
    }
    assert c.KF * wmax * Imax == U * d by {
      assert c.KF * (wmax0 * d) == U * d;
    }
    assert (c.KF * Imax) * w == (c.KF * Imax) * wmax;
  }

  /** When the rated point lies on the measured speed line, the fitted line
      passes through it too. */
  lemma FitReproducesRatedSpeed(mn: MeasurementEntry)
    requires Estimable(mn) && mn.U != 0.0 && RatedOnSpeedLine(mn)
    ensures var c := Estimate(mn).Constants();
      c.KM != 0.0 && c.KF != 0.0 && Speed(c, mn.U, c.Tf + mn.Tr) == mn.wr
  {
    var c := Estimate(mn).Constants();
    FitReproducesCurrents(mn);
    FitReproducesNoLoadSpeed(mn);
    RatedSpeedOnLine(c, mn.U, mn.wmax, mn.wr, mn.Tr, mn.Tmax);
  }

  lemma RatedSpeedOnLine(c: Motor, U: real, wmax: real, wr: real, Tr: real, Tmax: real)
    requires c.KM != 0.0 && c.KF != 0.0 && c.Ra != 0.0 && Tmax != 0.0
    requires NoLoadSpeed(c, U) == wmax && MaxMagTorque(c, U) - c.Tf == Tmax
    requires wr * Tmax == wmax * (Tmax - Tr)
    ensures Speed(c, U, c.Tf + Tr) == wr
  {
    var k := SpeedTorqueSlope(c);
    SpeedLine(c, U, c.Tf, MaxMagTorque(c, U));
    SpeedLine(c, U, c.Tf, c.Tf + Tr);
    LineThrough(wmax, k, Tmax, Tr, wr, Speed(c, U, c.Tf + Tr));
  }

  /** A line falling from w0 at slope k reaches 0 at Tm; at Tr it meets every
      point (Tr, wr) that lies on the chord from (0, w0) to (Tm, 0). */
  lemma LineThrough(w0: real, k: real, Tm: real, Tr: real, wr: real, x: real)
    requires Tm != 0.0 && w0 == k * Tm && w0 - x == k * Tr && wr * Tm == w0 * (Tm - Tr)
    ensures x == wr
  {
    assert x * Tm == wr * Tm;
    assert (x - wr) * Tm == 0.0;
  }

  /** When the rated point lies on the measured current line, the fitted
      current at the rated torque is the measured rated current. */
  lemma FitReproducesRatedCurrent(mn: MeasurementEntry)
    requires Estimable(mn) && RatedOnCurrentLine(mn)
    ensures var c := Estimate(mn).Constants();
      c.KM != 0.0 && Current(c, c.Tf + mn.Tr) == mn.Ir
  {
    var e := Estimate(mn);
    RatedCurrentOnLine(e.Constants(), mn.I0, mn.Ir, mn.Imax, mn.Tr, mn.Tmax);
  }

  lemma RatedCurrentOnLine(c: Motor, I0: real, Ir: real, Imax: real, Tr: real, Tmax: real)
    requires c.KM != 0.0 && Imax != I0
    requires c.KM * (Imax - I0) == Tmax && c.Tf * (Imax - I0) == Tmax * I0
    requires Tr * (Imax - I0) == Tmax * (Ir - I0)
    ensures Current(c, c.Tf + Tr) == Ir
  {
    var d := Imax - I0;
    assert c.Tf == c.KM * I0 by {
      assert c.Tf * d == c.KM * I0 * d;
    }
    assert Tr == c.KM * (Ir - I0) by {
      assert Tr * d == c.KM * (Ir - I0) * d;
    }
    assert c.KM * Current(c, c.Tf + Tr) == c.KM * Ir;
  }

  /** The slope the output stage recomputes from the fitted constants is the
      measured no-load-to-stall slope, with its sign turned. */
  lemma FitReproducesSlope(mn: MeasurementEntry)
    requires Estimable(mn) && mn.U != 0.0
    ensures var c := Estimate(mn).Constants();
      c.KM != 0.0 && c.KF != 0.0 && SpeedTorqueSlope(c) == -Estimate(mn).dwdT
  {
    var e := Estimate(mn);
    FitReproducesCurrents(mn);
    SlopeOfFit(e.Constants(), mn.U, mn.I0, mn.Imax, mn.Tmax, mn.wmax, e.wmax0, e.dwdT);
  }

  lemma SlopeOfFit(c: Motor, U: real, I0: real, Imax: real, Tmax: real, wmax: real, wmax0: real, s: real)
    requires c.KM != 0.0 && c.KF != 0.0 && Imax != 0.0 && Tmax != 0.0
    requires c.Ra * Imax == U && c.KM * (Imax - I0) == Tmax
    requires c.KF * wmax0 == U && wmax0 * (Imax - I0) == wmax * Imax
    requires s * Tmax == -wmax
    ensures SpeedTorqueSlope(c) == -s
  {
    var k := SpeedTorqueSlope(c);
    var d := Imax - I0;
    assert c.KF * wmax == c.Ra * d by {
      assert c.KF * wmax * Imax == c.Ra * d * Imax by {
        assert c.KF * (wmax0 * d) == U * d;
      }
    }
    assert c.KF * c.KM * wmax == c.Ra * Tmax;
    assert (c.KF * c.KM) * (k * Tmax) == (c.KF * c.KM) * (-s * Tmax);
    assert k * Tmax == -s * Tmax;
  }
}

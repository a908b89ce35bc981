/** Bench measurements of a brushed DC motor and their referral to the motor shaft. */
module Measurement {

  /** One set of bench measurements: the no-load point, a (perhaps rated) load
      point and the stall point, taken at voltage U behind a gearbox of reduction
      ratio `reductionRatio` (1 when measured on the motor shaft itself). */
  datatype MeasurementEntry = MeasurementEntry(
    U: real,             // voltage, V
    wmax: real,          // no-load angular speed, rad/s
    I0: real,            // no-load current, A
    wr: real,            // angular speed at the load point, rad/s
    Tr: real,            // torque at the load point, Nm
    Ir: real,            // current at the load point, A
    Tmax: real,          // stall torque, Nm
    Imax: real,          // stall current, A
    reductionRatio: real
  )

  /** A measurement already referred to the motor shaft. */
  predicate OnMotorShaft(m: MeasurementEntry) {
    m.reductionRatio == 1.0
  }

  /** Refers a measurement to the motor shaft: speeds are multiplied by the
      reduction ratio r, torques divided by it, currents and voltage kept, and
      the ratio reset to 1. The ratio itself is returned beside the new entry. */
  function Normalize(m: MeasurementEntry): (res: (MeasurementEntry, real))
    requires m.reductionRatio != 0.0
    ensures res.1 == m.reductionRatio && OnMotorShaft(res.0)
    ensures res.0.wmax == m.wmax * res.1 && res.0.wr == m.wr * res.1
    ensures res.0.Tr * res.1 == m.Tr && res.0.Tmax * res.1 == m.Tmax
    ensures res.0.U == m.U && res.0.I0 == m.I0 && res.0.Ir == m.Ir && res.0.Imax == m.Imax
    // an ideal gearbox passes the mechanical power of the load point unchanged
    ensures res.0.wr * res.0.Tr == m.wr * m.Tr
  {
    var r := m.reductionRatio;
    (m.(wmax := m.wmax * r, wr := m.wr * r, Tr := m.Tr / r, Tmax := m.Tmax / r, reductionRatio := 1.0), r)
  }

  /** Refers a motor-shaft measurement back to the output of a gearbox of ratio r. */
  function Denormalize(m: MeasurementEntry, r: real): (d: MeasurementEntry)
    requires r != 0.0
    ensures d.reductionRatio == r
    ensures d.wmax * r == m.wmax && d.wr * r == m.wr
    ensures d.Tr == m.Tr * r && d.Tmax == m.Tmax * r
    ensures d.U == m.U && d.I0 == m.I0 && d.Ir == m.Ir && d.Imax == m.Imax
  {
    m.(wmax := m.wmax / r, wr := m.wr / r, Tr := m.Tr * r, Tmax := m.Tmax * r, reductionRatio := r)
  }

  /** Undoing the referral with the returned ratio gives back the original entry. */
  lemma NormalizeRoundTrip(m: MeasurementEntry)
    requires m.reductionRatio != 0.0
    ensures Denormalize(Normalize(m).0, Normalize(m).1) == m
  {
    var (n, r) := Normalize(m);
    var d := Denormalize(n, r);
    assert d.wmax == m.wmax && d.wr == m.wr && d.Tr == m.Tr && d.Tmax == m.Tmax;
  }

  /** A measurement on the motor shaft is left as it is, with ratio 1. */
  lemma NormalizeOnShaft(m: MeasurementEntry)
    requires OnMotorShaft(m)
    ensures Normalize(m) == (m, 1.0)
  {
    var n := Normalize(m).0;
    assert n.Tr == m.Tr / 1.0 == m.Tr && n.Tmax == m.Tmax / 1.0 == m.Tmax;
    assert n.wmax == m.wmax && n.wr == m.wr;
  }

  /** Normalizing a normalized entry changes nothing. */
  lemma NormalizeIdempotent(m: MeasurementEntry)
    requires m.reductionRatio != 0.0
    ensures Normalize(Normalize(m).0) == (Normalize(m).0, 1.0)
  {
    NormalizeOnShaft(Normalize(m).0);
  }
}

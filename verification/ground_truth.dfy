/**
 `calculate_test_ground_truths.py`: the test positions in the tunnel
 experiment, trilaterated in the XZ-plane (y = 0) from the measured distances
 to beacon 1 at (10, 0, 0) and beacon 3 at the origin. `** 0.5` is the
 parameter `sqrt`; Python's float rounding is not modelled.
 */
module GroundTruth {
  import opened Common

  /** The x coordinate of beacon 1; beacon 3 sits at the origin. */
  const Beacon1X: real := 10.0

  /** `calculate_test_ground_truth`: x = (d3^2 - d1^2 + 100) / 20 and
      z = sqrt(max(0, d3^2 - x^2)). When the two circles meet, (x, z) is their
      upper intersection; when they do not, z is 0 and nothing fails. */
  function Trilaterate(d1: real, d3: real, sqrt: real -> real): (r: (real, real))
    ensures 20.0 * r.0 == d3 * d3 - d1 * d1 + 100.0
    ensures RootAt(sqrt, MaxReal(0.0, d3 * d3 - r.0 * r.0)) ==>
      && r.1 >= 0.0
      && (d3 * d3 >= r.0 * r.0 ==>
            && r.0 * r.0 + r.1 * r.1 == d3 * d3
            && (r.0 - Beacon1X) * (r.0 - Beacon1X) + r.1 * r.1 == d1 * d1)
      && (d3 * d3 < r.0 * r.0 ==> r.1 == 0.0)
  {
    var x := (d3 * d3 - d1 * d1 + 100.0) / 20.0;
    var zSquared := MaxReal(0.0, d3 * d3 - x * x);
    RootOfZero(sqrt);
    (x, sqrt(zSquared))
  }

  /** Trilateration inverts the distance measurement: a point (x0, 0, z0)
      with z0 >= 0 is recovered exactly from its distances to the two
      beacons. */
  lemma {:induction false} TrilaterateRecoversPoint(x0: real, z0: real, d1: real, d3: real, sqrt: real -> real)
    requires z0 >= 0.0
    requires d1 * d1 == (x0 - Beacon1X) * (x0 - Beacon1X) + z0 * z0
    requires d3 * d3 == x0 * x0 + z0 * z0
    requires RootAt(sqrt, z0 * z0)
    ensures Trilaterate(d1, d3, sqrt) == (x0, z0)
  {
    var r := Trilaterate(d1, d3, sqrt);
    assert 20.0 * x0 == d3 * d3 - d1 * d1 + 100.0;
    assert r.0 == x0;
    assert z0 * z0 >= 0.0;
    assert MaxReal(0.0, d3 * d3 - r.0 * r.0) == z0 * z0;
    assert r.1 * r.1 == z0 * z0;
    RootUnique(r.1, z0);
  }

  /** The three documented test inputs give x within rounding of 3.30, 9.69
      and -1.53 and, for an exact root, z within rounding of 9.06, 9.40 and
      9.27. */
  lemma DocumentedGroundTruths(sqrt: real -> real)
    ensures var r := Trilaterate(11.27, 9.64, sqrt);
      && 3.295 <= r.0 < 3.305
      && (RootAt(sqrt, MaxReal(0.0, 9.64 * 9.64 - r.0 * r.0)) ==> 9.055 <= r.1 < 9.065)
    ensures var r := Trilaterate(9.4, 13.5, sqrt);
      && 9.685 <= r.0 < 9.695
      && (RootAt(sqrt, MaxReal(0.0, 13.5 * 13.5 - r.0 * r.0)) ==> 9.395 <= r.1 < 9.405)
    ensures var r := Trilaterate(14.8, 9.4, sqrt);
      && -1.535 < r.0 <= -1.525
      && (RootAt(sqrt, MaxReal(0.0, 9.4 * 9.4 - r.0 * r.0)) ==> 9.265 <= r.1 < 9.275)
  {
    RootWithin(sqrt, 9.64 * 9.64 - 3.295835 * 3.295835, 9.055, 9.065);
    RootWithin(sqrt, 13.5 * 13.5 - 9.6945 * 9.6945, 9.395, 9.405);
    RootWithin(sqrt, 9.4 * 9.4 - (-1.534) * (-1.534), 9.265, 9.275);
  }

  /** A root of a value between lo^2 and hi^2 lies between lo and hi. */
  lemma RootWithin(sqrt: real -> real, v: real, lo: real, hi: real)
    requires 0.0 <= lo <= hi
    requires lo * lo <= v < hi * hi
    ensures RootAt(sqrt, MaxReal(0.0, v)) ==> lo <= sqrt(MaxReal(0.0, v)) < hi
  {
    if RootAt(sqrt, MaxReal(0.0, v)) {
      var r := sqrt(MaxReal(0.0, v));
      if r < lo {
        SquareStrictlyMonotonic(r, lo);
      }
      if r >= hi {
        if r > hi {
          SquareStrictlyMonotonic(hi, r);
        }
      }
    }
  }
}

/** `generateClusterColor` (frontend/src/features/clusters/lib.ts): a golden-angle hue per cluster id. */
module ClusterColor {

  /** A CSS `hsl(h, s%, l%)` colour. */
  datatype Color = Hsl(hue: real, saturation: nat, lightness: nat)

  /** The grey reserved for noise (`cluster_id == -1`). */
  const NoiseColor := Hsl(0.0, 0, 30)

  /** The hue step, 137.508 degrees, in thousandths of a degree. */
  const StepMilli := 137508
  /** A full turn, 360 degrees, in thousandths of a degree. */
  const TurnMilli := 360000

  /** JavaScript's `%`: the remainder takes the sign of the dividend. */
  function JsRem(x: int, m: int): (r: int)
    requires m > 0
    ensures x >= 0 ==> 0 <= r < m && r == x % m
    ensures x < 0 ==> -m < r <= 0 && -r == (-x) % m
  {
    if x >= 0 then x % m else -((-x) % m)
  }

  /** `(clusterId * 137.508) % 360`, in thousandths of a degree. */
  function HueMilli(id: int): (h: int)
    ensures id >= 0 ==> 0 <= h < TurnMilli
    ensures id < 0 ==> -TurnMilli < h <= 0
  {
    JsRem(id * StepMilli, TurnMilli)
  }

  /** `generateClusterColor`. */
  function ClusterColorOf(id: int): (c: Color)
    ensures c == NoiseColor <==> id == -1
    ensures id != -1 ==> c.saturation == 70 && c.lightness == 60
    ensures id >= 0 ==> 0.0 <= c.hue < 360.0
    ensures id < -1 ==> -360.0 < c.hue <= 0.0
  {
    if id == -1 then NoiseColor else Hsl(HueMilli(id) as real / 1000.0, 70, 60)
  }

  // ---------------------------------------------------------------------------
  // Arithmetic of the period
  // ---------------------------------------------------------------------------

  lemma {:induction false} MulAtLeast(m: int, k: int)
    requires m > 0
    ensures k >= 1 ==> m * k >= m
    ensures k <= -1 ==> m * k <= -m
    decreases if k < 0 then -k else k
  {
    if k > 1 {
      MulAtLeast(m, k - 1);
      assert m * k == m * (k - 1) + m;
    } else if k < -1 {
      MulAtLeast(m, k + 1);
      assert m * k == m * (k + 1) - m;
    }
  }

  lemma ModUnique(z: int, m: int, t: int, r: int)
    requires m > 0 && 0 <= r < m && z == m * t + r
    ensures z % m == r
  {
    var q, s := z / m, z % m;
    assert z == m * q + s;
    assert m * (t - q) == s - r by {
      assert m * (t - q) == m * t - m * q;
    }
    MulAtLeast(m, t - q);
  }

  lemma ModOfMultiple(t: int, m: int)
    requires m > 0
    ensures (m * t) % m == 0
  {
    ModUnique(m * t, m, t, 0);
  }

  lemma ModEqIff(x: int, y: int, m: int)
    requires m > 0
    ensures x % m == y % m <==> (x - y) % m == 0
  {
    var qx, qy, ry := x / m, y / m, y % m;
    if x % m == ry {
      assert x - y == m * (qx - qy) by {
        assert m * (qx - qy) == m * qx - m * qy;
      }
      ModUnique(x - y, m, qx - qy, 0);
    }
    if (x - y) % m == 0 {
      var k := (x - y) / m;
      assert x == m * (qy + k) + ry by {
        assert m * (qy + k) == m * qy + m * k;
      }
      ModUnique(x, m, qy + k, ry);
    }
  }

  /** 137508 / 360000 = 11459 / 30000 in lowest terms, and 11459 * 20939 = 1 (mod 30000). */
  lemma StepDividesTurnIff(d: int)
    ensures (d * StepMilli) % TurnMilli == 0 <==> d % 30000 == 0
  {
    if d % 30000 == 0 {
      var t := d / 30000;
      assert d == 30000 * t;
      assert d * StepMilli == TurnMilli * (t * 11459);
      ModOfMultiple(t * 11459, TurnMilli);
    }
    if (d * StepMilli) % TurnMilli == 0 {
      var k := (d * StepMilli) / TurnMilli;
      assert d * StepMilli == TurnMilli * k;
      assert d * 11459 == 30000 * k;
      assert d * 11459 * 20939 == 30000 * k * 20939;
      assert d * 11459 * 20939 == d * (30000 * 7998 + 1);
      assert d == 30000 * (k * 20939 - d * 7998);
      ModOfMultiple(k * 20939 - d * 7998, 30000);
    }
  }

  /**
   * The golden-angle step spreads colours: two non-negative cluster ids get the same colour
   * exactly when they differ by a multiple of 30000.
   */
  lemma ColorsRepeatEvery30000(a: int, b: int)
    requires a >= 0 && b >= 0
    ensures ClusterColorOf(a) == ClusterColorOf(b) <==> (a - b) % 30000 == 0
  {
    ModEqIff(a * StepMilli, b * StepMilli, TurnMilli);
    assert a * StepMilli - b * StepMilli == (a - b) * StepMilli;
    StepDividesTurnIff(a - b);
    assert ClusterColorOf(a) == ClusterColorOf(b) <==> HueMilli(a) == HueMilli(b);
  }

  /** So the clusters of one analysis, numbered from 0 upwards, get pairwise different colours. */
  lemma DistinctColorsForSmallIds(a: int, b: int)
    requires 0 <= a < b < 30000
    ensures ClusterColorOf(a) != ClusterColorOf(b)
  {
    ColorsRepeatEvery30000(a, b);
    ModUnique(a - b + 30000, 30000, 0, a - b + 30000);
    ModEqIff(a - b + 30000, a - b, 30000);
    ModOfMultiple(1, 30000);
    assert (a - b + 30000) - (a - b) == 30000;
  }
}

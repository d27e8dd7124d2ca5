// The shift-and-add rotation over exact reals: it is a rotation by the
// requested angle less a residual that is no larger than the last table entry.
module Cordic {

  datatype Vec = Vec(x: real, y: real)

  datatype State = State(v: Vec, z: real)

  datatype Reduction = Reduction(z: real, flip: bool)

  function HalfPower(i: nat): (r: real)
    ensures r > 0.0
  {
    if i == 0 then 1.0 else HalfPower(i - 1) / 2.0
  }

  // ---- the operation ----

  function FullTurns(theta: real, pi: real): int
    requires pi > 0.0
  {
    (theta / (2.0 * pi)).Floor
  }

  // The angle brought into (-pi, pi].
  function Wrapped(theta: real, pi: real): real
    requires pi > 0.0
  {
    var t := theta - 2.0 * pi * FullTurns(theta, pi) as real;
    if t > pi then t - 2.0 * pi else t
  }

  // ... and from there into the right half plane, remembering a half turn.
  function Reduce(theta: real, pi: real): Reduction
    requires pi > 0.0
  {
    var t := Wrapped(theta, pi);
    if t > pi / 2.0 then Reduction(t - pi, true)
    else if t < -pi / 2.0 then Reduction(t + pi, true)
    else Reduction(t, false)
  }

  function Sign(z: real): real {
    if z >= 0.0 then 1.0 else -1.0
  }

  // One shift-and-add step in direction d.
  function Shear(v: Vec, d: real, t: real): Vec {
    Vec(v.x - d * v.y * t, v.y + d * v.x * t)
  }

  function Step(s: State, i: nat, angle: real): State {
    State(Shear(s.v, Sign(s.z), HalfPower(i)), s.z - Sign(s.z) * angle)
  }

  // The state after the first n table entries.
  function Iterate(angles: seq<real>, s: State, n: nat): State
    requires n <= |angles|
  {
    if n == 0 then s else Step(Iterate(angles, s, n - 1), n - 1, angles[n - 1])
  }

  function Start(gain: real, v: Vec, z: real): State {
    State(Vec(v.x * gain, v.y * gain), z)
  }

  function Rotated(angles: seq<real>, gain: real, pi: real, v: Vec, theta: real): Vec
    requires pi > 0.0
  {
    var red := Reduce(theta, pi);
    var end := Iterate(angles, Start(gain, v, red.z), |angles|).v;
    if red.flip then Vec(-end.x, -end.y) else end
  }

  function Pair(x: array2<real>, h: nat, p: nat): Vec
    requires h < x.Length0 && 2 * p + 1 < x.Length1
    reads x
  {
    Vec(x[h, 2 * p], x[h, 2 * p + 1])
  }

  class CordicUnit {
    const angles: seq<real>
    const gain: real
    const pi: real

    constructor (angles: seq<real>, gain: real, pi: real)
      ensures this.angles == angles && this.gain == gain && this.pi == pi
    {
      this.angles, this.gain, this.pi := angles, gain, pi;
    }

    method ReduceAngle(theta: real) returns (t: real, flip: bool)
      requires pi > 0.0
      ensures Reduction(t, flip) == Reduce(theta, pi)
    {
      hide FullTurns;
      t := theta - 2.0 * pi * FullTurns(theta, pi) as real;
      if t > pi {
        t := t - 2.0 * pi;
      }
      flip := false;
      if t > pi / 2.0 {
        t := t - pi;
        flip := true;
      } else if t < -pi / 2.0 {
        t := t + pi;
        flip := true;
      }
    }

    method CordicRotate(x0: real, y0: real, theta: real) returns (x: real, y: real)
      requires pi > 0.0
      ensures Vec(x, y) == Rotated(angles, gain, pi, Vec(x0, y0), theta)
    {
      hide Reduce, HalfPower;
      var t, flip := ReduceAngle(theta);
      x, y := x0 * gain, y0 * gain;
      var z := t;
      for i := 0 to |angles|
        invariant State(Vec(x, y), z) == Iterate(angles, Start(gain, Vec(x0, y0), t), i)
      {
        var d := Sign(z);
        x, y := x - d * y * HalfPower(i), y + d * x * HalfPower(i);
        z := z - d * angles[i];
      }
      if flip {
        x, y := -x, -y;
      }
    }

    // Every head is rotated pair by pair, pair p by the angle of its frequency.
    method RotateHeads(x: array2<real>, thetas: seq<real>)
      requires pi > 0.0 && x.Length1 == 2 * |thetas|
      modifies x
      ensures forall h, p :: 0 <= h < x.Length0 && 0 <= p < |thetas| ==>
        Pair(x, h, p) == Rotated(angles, gain, pi, old(Pair(x, h, p)), thetas[p])
    {
      hide Rotated;
      for h := 0 to x.Length0
        invariant forall k, p :: 0 <= k < h && 0 <= p < |thetas| ==>
          Pair(x, k, p) == Rotated(angles, gain, pi, old(Pair(x, k, p)), thetas[p])
        invariant forall k, c :: h <= k < x.Length0 && 0 <= c < x.Length1 ==> x[k, c] == old(x[k, c])
      {
        for p := 0 to |thetas|
          invariant forall k, q :: 0 <= k < h && 0 <= q < |thetas| ==>
            Pair(x, k, q) == Rotated(angles, gain, pi, old(Pair(x, k, q)), thetas[q])
          invariant forall q :: 0 <= q < p ==>
            Pair(x, h, q) == Rotated(angles, gain, pi, old(Pair(x, h, q)), thetas[q])
          invariant forall c :: 2 * p <= c < x.Length1 ==> x[h, c] == old(x[h, c])
          invariant forall k, c :: h < k < x.Length0 && 0 <= c < x.Length1 ==> x[k, c] == old(x[k, c])
        {
          var xRot, yRot := CordicRotate(x[h, 2 * p], x[h, 2 * p + 1], thetas[p]);
          x[h, 2 * p] := xRot;
          x[h, 2 * p + 1] := yRot;
        }
      }
    }
  }

  // ---- the angle reduction ----

  // How many half turns the reduction takes off.
  ghost function HalfTurns(theta: real, pi: real): int
    requires pi > 0.0
  {
    var t := theta - 2.0 * pi * FullTurns(theta, pi) as real;
    var w := Wrapped(theta, pi);
    2 * FullTurns(theta, pi) + (if t > pi then 2 else 0)
    + if w > pi / 2.0 then 1 else if w < -pi / 2.0 then -1 else 0
  }

  lemma FloorMod(theta: real, pi: real)
    requires pi > 0.0
    ensures 0.0 <= theta - 2.0 * pi * FullTurns(theta, pi) as real < 2.0 * pi
  {
    var m := 2.0 * pi;
    assert theta / m * m == theta;
    BelowOne(theta / m - FullTurns(theta, pi) as real, m, theta - m * FullTurns(theta, pi) as real);
  }

  lemma BelowOne(f: real, m: real, p: real)
    requires 0.0 <= f < 1.0 && m > 0.0 && p == f * m
    ensures 0.0 <= p < m
  {
    assert f * m >= 0.0 && (1.0 - f) * m > 0.0;
    assert (1.0 - f) * m == m - f * m;
  }

  // The reduced angle lies in [-pi/2, pi/2] and differs from the original by
  // half turns, an odd number of them exactly when the result is flipped.
  lemma ReducedAngle(theta: real, pi: real)
    requires pi > 0.0
    ensures -pi / 2.0 <= Reduce(theta, pi).z <= pi / 2.0
    ensures theta == Reduce(theta, pi).z + HalfTurns(theta, pi) as real * pi
    ensures Reduce(theta, pi).flip <==> HalfTurns(theta, pi) % 2 != 0
  {
    FloorMod(theta, pi);
    var k, extra := FullTurns(theta, pi), HalfTurns(theta, pi) - 2 * FullTurns(theta, pi);
    TurnsAdd(k, extra, pi);
  }

  lemma TurnsAdd(k: int, extra: int, pi: real)
    ensures (2 * k + extra) as real * pi == 2.0 * pi * k as real + extra as real * pi
  {
  }

  // ---- the norm ----

  function Norm2(v: Vec): real {
    v.x * v.x + v.y * v.y
  }

  // What n steps multiply the squared norm by.
  function Growth(n: nat): (r: real)
    ensures r > 0.0
  {
    if n == 0 then 1.0 else Growth(n - 1) * (1.0 + HalfPower(n - 1) * HalfPower(n - 1))
  }

  lemma ShearNorm(v: Vec, d: real, t: real)
    requires d == 1.0 || d == -1.0
    ensures Norm2(Shear(v, d, t)) == Norm2(v) * (1.0 + t * t)
  {
    var x, y, e := v.x, v.y, d * t;
    assert d * y * t == e * y && d * x * t == e * x;
    assert e * e == t * t;
    assert (x - e * y) * (x - e * y) == x * x - 2.0 * e * x * y + e * e * (y * y);
    assert (y + e * x) * (y + e * x) == y * y + 2.0 * e * x * y + e * e * (x * x);
    assert (x * x + y * y) * (1.0 + t * t) == x * x + y * y + t * t * (x * x) + t * t * (y * y);
  }

  lemma {:induction false} IterateNorm(angles: seq<real>, s: State, n: nat)
    requires n <= |angles|
    ensures Norm2(Iterate(angles, s, n).v) == Norm2(s.v) * Growth(n)
  {
    hide Norm2, Shear;
    if n > 0 {
      IterateNorm(angles, s, n - 1);
      var p := Iterate(angles, s, n - 1);
      ShearNorm(p.v, Sign(p.z), HalfPower(n - 1));
      Regroup(Norm2(s.v), Growth(n - 1), 1.0 + HalfPower(n - 1) * HalfPower(n - 1));
    }
  }

  lemma Regroup(a: real, b: real, c: real)
    ensures (a * b) * c == a * (b * c)
  {
  }

  lemma RotatedNorm(angles: seq<real>, gain: real, pi: real, v: Vec, theta: real)
    requires pi > 0.0
    ensures Norm2(Rotated(angles, gain, pi, v, theta)) == Norm2(v) * (gain * gain * Growth(|angles|))
  {
    hide Reduce, Iterate, Norm2, Start;
    var red := Reduce(theta, pi);
    IterateNorm(angles, Start(gain, v, red.z), |angles|);
    StartNorm(gain, v, red.z);
    Regroup(Norm2(v), gain * gain, Growth(|angles|));
    Negated(Iterate(angles, Start(gain, v, red.z), |angles|).v);
  }

  lemma StartNorm(gain: real, v: Vec, z: real)
    ensures Norm2(Start(gain, v, z).v) == Norm2(v) * (gain * gain)
  {
    assert (v.x * gain) * (v.x * gain) == (v.x * v.x) * (gain * gain);
    assert (v.y * gain) * (v.y * gain) == (v.y * v.y) * (gain * gain);
    assert (v.x * v.x) * (gain * gain) + (v.y * v.y) * (gain * gain) == (v.x * v.x + v.y * v.y) * (gain * gain);
  }

  lemma Negated(v: Vec)
    ensures Norm2(Vec(-v.x, -v.y)) == Norm2(v)
  {
  }

  // Lengths are kept, for every vector and every angle whatever the table
  // holds, exactly by the gain whose square undoes the growth.
  lemma NormKeptExactly(angles: seq<real>, gain: real, pi: real)
    requires pi > 0.0
    ensures (forall v, theta :: Norm2(Rotated(angles, gain, pi, v, theta)) == Norm2(v)) <==>
            gain * gain * Growth(|angles|) == 1.0
  {
    hide Rotated;
    var k := gain * gain * Growth(|angles|);
    forall v, theta ensures Norm2(Rotated(angles, gain, pi, v, theta)) == Norm2(v) * k {
      RotatedNorm(angles, gain, pi, v, theta);
    }
    assert Norm2(Vec(1.0, 0.0)) == 1.0;
    assert Norm2(Rotated(angles, gain, pi, Vec(1.0, 0.0), 0.0)) == 1.0 * k;
  }

  // ---- the residual angle ----

  function Tail(angles: seq<real>, i: nat): real
    requires i <= |angles|
    decreases |angles| - i
  {
    if i == |angles| then 0.0 else angles[i] + Tail(angles, i + 1)
  }

  // No entry exceeds what the later ones can make up for, give or take the last.
  ghost predicate Covering(angles: seq<real>) {
    && |angles| > 0
    && forall i :: 0 <= i < |angles| ==> 0.0 <= angles[i] <= angles[|angles| - 1] + Tail(angles, i + 1)
  }

  // Enough for that: each entry is at most twice the next.
  ghost predicate Halving(angles: seq<real>) {
    && |angles| > 0 && angles[|angles| - 1] >= 0.0
    && forall i :: 0 <= i < |angles| - 1 ==> 0.0 <= angles[i] <= 2.0 * angles[i + 1]
  }

  lemma {:induction false} HalvingTail(angles: seq<real>, i: nat)
    requires Halving(angles) && i < |angles|
    ensures 0.0 <= angles[i] <= angles[|angles| - 1] + Tail(angles, i + 1)
    decreases |angles| - i
  {
    if i + 1 < |angles| {
      HalvingTail(angles, i + 1);
    }
  }

  lemma HalvingCovers(angles: seq<real>)
    requires Halving(angles)
    ensures Covering(angles)
  {
    hide Tail;
    forall i | 0 <= i < |angles| ensures 0.0 <= angles[i] <= angles[|angles| - 1] + Tail(angles, i + 1) {
      HalvingTail(angles, i);
    }
  }

  ghost predicate Leftover(angles: seq<real>, n: nat, z: real)
    requires n <= |angles| && |angles| > 0
  {
    -(angles[|angles| - 1] + Tail(angles, n)) <= z <= angles[|angles| - 1] + Tail(angles, n)
  }

  lemma TurnedBack(angles: seq<real>, n: nat, s: State)
    requires Covering(angles) && n < |angles| && Leftover(angles, n, s.z)
    ensures Leftover(angles, n + 1, Step(s, n, angles[n]).z)
  {
    hide Shear, HalfPower;
  }

  lemma {:induction false} ResidualAfter(angles: seq<real>, s: State, n: nat)
    requires Covering(angles) && n <= |angles| && Leftover(angles, 0, s.z)
    ensures Leftover(angles, n, Iterate(angles, s, n).z)
  {
    hide Leftover, Step, Covering;
    if n > 0 {
      ResidualAfter(angles, s, n - 1);
      TurnedBack(angles, n - 1, Iterate(angles, s, n - 1));
    }
  }

  ghost predicate NonNegative(angles: seq<real>) {
    forall i :: 0 <= i < |angles| ==> angles[i] >= 0.0
  }

  lemma {:induction false} TailNonNegative(angles: seq<real>, i: nat)
    requires NonNegative(angles) && i <= |angles|
    ensures Tail(angles, i) >= 0.0
    decreases |angles| - i
  {
    if i < |angles| {
      TailNonNegative(angles, i + 1);
    }
  }

  lemma {:induction false} TailFalls(angles: seq<real>, i: nat, j: nat)
    requires NonNegative(angles) && i <= j <= |angles|
    ensures Tail(angles, j) <= Tail(angles, i)
    decreases j - i
  {
    if i < j {
      TailFalls(angles, i + 1, j);
    }
  }

  // From the sum of the first i entries, the first i steps come down to 0.
  lemma {:induction false} ComesDown(angles: seq<real>, s: State, i: nat, n: nat)
    requires NonNegative(angles) && n <= i <= |angles| && s.z == Tail(angles, 0) - Tail(angles, i)
    ensures Iterate(angles, s, n).z == Tail(angles, n) - Tail(angles, i)
  {
    hide Shear, HalfPower;
    if n > 0 {
      ComesDown(angles, s, i, n - 1);
      TailFalls(angles, n - 1, i);
    }
  }

  // Below 0 by more than the later entries add up to, the angle stays below.
  lemma {:induction false} StaysBelow(angles: seq<real>, s: State, i: nat, n: nat, low: real)
    requires NonNegative(angles) && i <= n <= |angles| && Iterate(angles, s, i).z <= low
    ensures Iterate(angles, s, n).z <= low + Tail(angles, i) - Tail(angles, n)
  {
    hide Shear, HalfPower;
    if i < n {
      StaysBelow(angles, s, i, n - 1, low);
    }
  }

  // The whole range of starting angles ends within the last entry.
  ghost predicate AllSettle(angles: seq<real>)
    requires |angles| > 0
  {
    forall s: State :: Leftover(angles, 0, s.z) ==> Leftover(angles, |angles|, Iterate(angles, s, |angles|).z)
  }

  // An entry that breaks the condition brings 0 to where the rest cannot reach.
  lemma GapMisses(angles: seq<real>, i: nat)
    requires NonNegative(angles) && i < |angles| && angles[i] > angles[|angles| - 1] + Tail(angles, i + 1)
    ensures !AllSettle(angles)
  {
    var s := State(Vec(0.0, 0.0), Tail(angles, 0) - Tail(angles, i));
    var n := |angles|;
    ComesDown(angles, s, i, i);
    assert Iterate(angles, s, i + 1).z == -angles[i] by {
      hide Shear, HalfPower;
    }
    StaysBelow(angles, s, i + 1, n, -angles[i]);
    TailFalls(angles, 0, i);
    TailNonNegative(angles, i);
    hide Iterate;
    assert Leftover(angles, 0, s.z) && !Leftover(angles, n, Iterate(angles, s, n).z);
  }

  // For a table of non-negative entries covering is exactly what it takes.
  lemma CoveringExactly(angles: seq<real>)
    requires |angles| > 0 && NonNegative(angles)
    ensures AllSettle(angles) <==> Covering(angles)
  {
    if Covering(angles) {
      forall s: State | Leftover(angles, 0, s.z) ensures Leftover(angles, |angles|, Iterate(angles, s, |angles|).z) {
        ResidualAfter(angles, s, |angles|);
      }
    } else {
      var i :| 0 <= i < |angles| && angles[i] > angles[|angles| - 1] + Tail(angles, i + 1);
      GapMisses(angles, i);
    }
  }

  function Residual(angles: seq<real>, gain: real, pi: real, v: Vec, theta: real): real
    requires pi > 0.0
  {
    Iterate(angles, Start(gain, v, Reduce(theta, pi).z), |angles|).z
  }

  // For any covering table that starts at pi/4, what is left of the angle after
  // all steps is at most the last entry.
  lemma ResidualBound(angles: seq<real>, gain: real, pi: real, v: Vec, theta: real)
    requires pi > 0.0 && Covering(angles) && angles[0] == pi / 4.0
    ensures -angles[|angles| - 1] <= Residual(angles, gain, pi, v, theta) <= angles[|angles| - 1]
  {
    ReducedAngle(theta, pi);
    hide Reduce, Iterate;
    assert angles[|angles| - 1] + Tail(angles, 0) >= pi / 2.0;
    ResidualAfter(angles, Start(gain, v, Reduce(theta, pi).z), |angles|);
  }

  // ---- the rotation it performs ----

  ghost predicate Adds(c: real -> real, s: real -> real, a: real, b: real) {
    c(a + b) == c(a) * c(b) - s(a) * s(b) && s(a + b) == s(a) * c(b) + c(a) * s(b)
  }

  ghost predicate Parity(c: real -> real, s: real -> real, a: real) {
    c(-a) == c(a) && s(-a) == -s(a)
  }

  // Cosine and sine, by the laws the proofs need.
  ghost predicate Trig(c: real -> real, s: real -> real, pi: real) {
    && pi > 0.0 && c(pi) == -1.0 && s(pi) == 0.0
    && (forall a, b :: Adds(c, s, a, b))
    && (forall a :: Parity(c, s, a))
  }

  // Entry i is the angle whose tangent is 2^-i.
  ghost predicate IsArctanTable(angles: seq<real>, c: real -> real, s: real -> real) {
    forall i :: 0 <= i < |angles| ==> s(angles[i]) == HalfPower(i) * c(angles[i])
  }

  // The product of the cosines from entry i on; the gain is the whole product.
  ghost function CosTail(angles: seq<real>, c: real -> real, i: nat): real
    requires i <= |angles|
    decreases |angles| - i
  {
    if i == |angles| then 1.0 else c(angles[i]) * CosTail(angles, c, i + 1)
  }

  function Spin(cos: real, sin: real, v: Vec): Vec {
    Vec(cos * v.x - sin * v.y, sin * v.x + cos * v.y)
  }

  ghost predicate Unit(cos: real, sin: real) {
    cos * cos + sin * sin == 1.0
  }

  // v rotated by the angle a.
  ghost function Turned(c: real -> real, s: real -> real, a: real, v: Vec): Vec {
    Spin(c(a), s(a), v)
  }

  ghost function Scaled(k: real, v: Vec): Vec {
    Vec(k * v.x, k * v.y)
  }

  lemma TrigZero(c: real -> real, s: real -> real, pi: real)
    requires Trig(c, s, pi)
    ensures c(0.0) == 1.0 && s(0.0) == 0.0
  {
    assert Parity(c, s, 0.0) && Adds(c, s, 0.0, pi);
  }

  lemma Pythagoras(c: real -> real, s: real -> real, pi: real, a: real)
    requires Trig(c, s, pi)
    ensures Unit(c(a), s(a))
  {
    TrigZero(c, s, pi);
    assert Parity(c, s, a) && Adds(c, s, a, -a);
    assert a + -a == 0.0;
  }

  lemma TurnedTwice(c: real -> real, s: real -> real, pi: real, a: real, b: real, v: Vec)
    requires Trig(c, s, pi)
    ensures Turned(c, s, a, Turned(c, s, b, v)) == Turned(c, s, a + b, v)
  {
    assert Adds(c, s, a, b);
    hide Trig, Adds, Spin;
    SpinTwice(c(a), s(a), c(b), s(b), v);
  }

  lemma SpinTwice(ca: real, sa: real, cb: real, sb: real, v: Vec)
    ensures Spin(ca, sa, Spin(cb, sb, v)) == Spin(ca * cb - sa * sb, sa * cb + ca * sb, v)
  {
    var x, y := v.x, v.y;
    assert ca * (cb * x - sb * y) - sa * (sb * x + cb * y) == (ca * cb - sa * sb) * x - (sa * cb + ca * sb) * y;
    assert sa * (cb * x - sb * y) + ca * (sb * x + cb * y) == (sa * cb + ca * sb) * x + (ca * cb - sa * sb) * y;
  }

  // One step turns by the signed entry and gives up that entry's cosine.
  lemma StepTurns(c: real -> real, s: real -> real, pi: real, st: State, i: nat, angle: real, delta: real,
                  before: real, k: real, v: Vec)
    requires Trig(c, s, pi) && s(angle) == HalfPower(i) * c(angle)
    requires delta == Sign(st.z) * angle && before == c(angle) * k && st.v == Scaled(before, v)
    ensures Step(st, i, angle).v == Scaled(k, Turned(c, s, delta, v)) && Step(st, i, angle).z == st.z - delta
  {
    hide Trig, HalfPower, Sign, Shear, Scaled, Spin;
    SignIsUnit(st.z);
    SignedAngle(c, s, pi, angle, Sign(st.z), delta);
    ShearSpins(c(angle), s(angle), HalfPower(i), Sign(st.z), s(delta), before, k, v);
  }

  lemma ShearSpins(ca: real, sa: real, t: real, d: real, signed: real, before: real, k: real, v: Vec)
    requires sa == t * ca && signed == d * sa && before == ca * k
    ensures Shear(Scaled(before, v), d, t) == Scaled(k, Spin(ca, signed, v))
  {
    ShearAxis(ca, sa, t, d, signed, before, k, v.x, v.y);
    ShearOther(ca, sa, t, d, signed, before, k, v.x, v.y);
  }

  lemma ShearAxis(ca: real, sa: real, t: real, d: real, signed: real, before: real, k: real, x: real, y: real)
    requires sa == t * ca && signed == d * sa && before == ca * k
    ensures before * x - d * (before * y) * t == k * (ca * x - signed * y)
  {
    assert d * (ca * k * y) * t == k * (d * (t * ca) * y);
    assert ca * k * x == k * (ca * x);
    assert k * (ca * x - signed * y) == k * (ca * x) - k * (signed * y);
  }

  lemma ShearOther(ca: real, sa: real, t: real, d: real, signed: real, before: real, k: real, x: real, y: real)
    requires sa == t * ca && signed == d * sa && before == ca * k
    ensures before * y + d * (before * x) * t == k * (signed * x + ca * y)
  {
    assert d * (ca * k * x) * t == k * (d * (t * ca) * x);
    assert ca * k * y == k * (ca * y);
    assert k * (signed * x + ca * y) == k * (signed * x) + k * (ca * y);
  }

  lemma SignIsUnit(z: real)
    ensures Sign(z) == 1.0 || Sign(z) == -1.0
  {
  }

  lemma SignedAngle(c: real -> real, s: real -> real, pi: real, angle: real, d: real, delta: real)
    requires Trig(c, s, pi) && (d == 1.0 || d == -1.0) && delta == d * angle
    ensures c(delta) == c(angle) && s(delta) == d * s(angle)
  {
    assert Parity(c, s, angle);
    assert delta == angle || delta == -angle;
  }

  lemma {:induction false} IterateTurns(angles: seq<real>, c: real -> real, s: real -> real, pi: real, v: Vec, z: real,
                                        n: nat)
    requires Trig(c, s, pi) && IsArctanTable(angles, c, s) && n <= |angles|
    ensures var end := Iterate(angles, Start(CosTail(angles, c, 0), v, z), n);
            end.v == Scaled(CosTail(angles, c, n), Turned(c, s, z - end.z, v))
  {
    hide Trig, Turned, Step, Sign, Start, Scaled, HalfPower;
    var k := CosTail(angles, c, 0);
    if n == 0 {
      NotTurned(c, s, pi, v);
      StartScales(k, v, z);
    } else {
      IterateTurns(angles, c, s, pi, v, z, n - 1);
      var p, a := Iterate(angles, Start(k, v, z), n - 1), angles[n - 1];
      assert Iterate(angles, Start(k, v, z), n) == Step(p, n - 1, a);
      assert CosTail(angles, c, n - 1) == c(a) * CosTail(angles, c, n);
      assert s(a) == HalfPower(n - 1) * c(a);
      hide Iterate, CosTail, IsArctanTable;
      var delta := Sign(p.z) * a;
      StepTurns(c, s, pi, p, n - 1, a, delta, CosTail(angles, c, n - 1), CosTail(angles, c, n),
        Turned(c, s, z - p.z, v));
      TurnedTwice(c, s, pi, delta, z - p.z, v);
      assert delta + (z - p.z) == z - (p.z - delta);
    }
  }

  lemma StartScales(k: real, v: Vec, z: real)
    ensures Start(k, v, z).v == Scaled(k, v) && Start(k, v, z).z == z
  {
  }

  lemma NotTurned(c: real -> real, s: real -> real, pi: real, v: Vec)
    requires Trig(c, s, pi)
    ensures Turned(c, s, 0.0, v) == v
  {
    TrigZero(c, s, pi);
  }

  ghost function Flipped(flip: bool, v: Vec): Vec {
    if flip then Vec(-v.x, -v.y) else v
  }

  lemma HalfTurn(c: real -> real, s: real -> real, pi: real, a: real, b: real, v: Vec)
    requires Trig(c, s, pi) && b == a + pi
    ensures Turned(c, s, b, v) == Flipped(true, Turned(c, s, a, v))
  {
    assert Adds(c, s, a, pi);
    assert c(b) == -c(a) && s(b) == -s(a);
    hide Trig, Adds, Spin;
    SpinNegates(c(a), s(a), v);
  }

  lemma SpinNegates(ca: real, sa: real, v: Vec)
    ensures Spin(-ca, -sa, v) == Flipped(true, Spin(ca, sa, v))
  {
    assert (-ca) * v.x == -(ca * v.x) && (-ca) * v.y == -(ca * v.y);
    assert (-sa) * v.x == -(sa * v.x) && (-sa) * v.y == -(sa * v.y);
  }

  lemma FlippedTwice(k: int, v: Vec)
    ensures Flipped(true, Flipped((k - 1) % 2 != 0, v)) == Flipped(k % 2 != 0, v)
  {
  }

  // An even number of half turns changes nothing, an odd number negates.
  lemma {:induction false} HalfTurnsFlip(c: real -> real, s: real -> real, pi: real, a: real, b: real, v: Vec, k: nat)
    requires Trig(c, s, pi) && b == a + k as real * pi
    ensures Turned(c, s, b, v) == Flipped(k % 2 != 0, Turned(c, s, a, v))
    decreases k
  {
    hide Trig, Turned;
    if k > 0 {
      hide Flipped;
      HalfTurnsFlip(c, s, pi, a, b - pi, v, k - 1);
      FlippedTwice(k, Turned(c, s, a, v));
      HalfTurn(c, s, pi, b - pi, b, v);
    } else {
      assert b == a;
    }
  }

  lemma AnyHalfTurnsFlip(c: real -> real, s: real -> real, pi: real, a: real, b: real, v: Vec, k: int)
    requires Trig(c, s, pi) && b == a + k as real * pi
    ensures Turned(c, s, b, v) == Flipped(k % 2 != 0, Turned(c, s, a, v))
  {
    hide Trig, Turned;
    if k >= 0 {
      HalfTurnsFlip(c, s, pi, a, b, v, k);
    } else {
      assert (-k) as real * pi == -(k as real * pi);
      HalfTurnsFlip(c, s, pi, b, a, v, -k);
    }
  }

  // The whole operation, for every vector and every angle: an exact rotation by
  // the angle less the residual.
  lemma RotatedIsRotation(angles: seq<real>, c: real -> real, s: real -> real, pi: real, v: Vec, theta: real)
    requires Trig(c, s, pi) && IsArctanTable(angles, c, s)
    ensures var gain := CosTail(angles, c, 0);
            Rotated(angles, gain, pi, v, theta) == Turned(c, s, theta - Residual(angles, gain, pi, v, theta), v)
  {
    hide Trig, Turned, Iterate, Reduce, IsArctanTable;
    assert pi > 0.0 by { PiPositive(c, s, pi); }
    var gain := CosTail(angles, c, 0);
    var red, r, k := Reduce(theta, pi), Residual(angles, gain, pi, v, theta), HalfTurns(theta, pi);
    hide HalfTurns;
    ReducedAngle(theta, pi);
    IterateTurns(angles, c, s, pi, v, red.z, |angles|);
    AnyHalfTurnsFlip(c, s, pi, red.z - r, theta - r, v, k);
  }

  lemma PiPositive(c: real -> real, s: real -> real, pi: real)
    requires Trig(c, s, pi)
    ensures pi > 0.0
  {
  }

  ghost predicate Undoes(k: real, growth: real, here: real) {
    k * k * growth == here
  }

  // The product of the table's cosines is the gain that keeps lengths.
  lemma GainUndoesGrowth(angles: seq<real>, c: real -> real, s: real -> real, pi: real)
    requires Trig(c, s, pi) && IsArctanTable(angles, c, s)
    ensures CosTail(angles, c, 0) * CosTail(angles, c, 0) * Growth(|angles|) == 1.0
  {
    hide CosTail, Trig;
    TailUndoesGrowth(angles, c, s, pi, 0);
  }

  lemma {:induction false} TailUndoesGrowth(angles: seq<real>, c: real -> real, s: real -> real, pi: real, i: nat)
    requires Trig(c, s, pi) && IsArctanTable(angles, c, s) && i <= |angles|
    ensures Undoes(CosTail(angles, c, i), Growth(|angles|), Growth(i))
    decreases |angles| - i
  {
    hide Trig, Unit, CosTail, Growth, HalfPower, Undoes;
    if i < |angles| {
      TailUndoesGrowth(angles, c, s, pi, i + 1);
      Pythagoras(c, s, pi, angles[i]);
      TailStep(angles, c, i);
      GrowthStep(i);
      GainStep(c(angles[i]), s(angles[i]), HalfPower(i), CosTail(angles, c, i + 1), CosTail(angles, c, i),
               Growth(|angles|), Growth(i), Growth(i + 1));
    } else {
      LastTail(angles, c);
    }
  }

  lemma TailStep(angles: seq<real>, c: real -> real, i: nat)
    requires i < |angles|
    ensures CosTail(angles, c, i) == c(angles[i]) * CosTail(angles, c, i + 1)
  {
  }

  lemma GrowthStep(i: nat)
    ensures Growth(i + 1) == Growth(i) * (1.0 + HalfPower(i) * HalfPower(i))
  {
  }

  lemma LastTail(angles: seq<real>, c: real -> real)
    ensures Undoes(CosTail(angles, c, |angles|), Growth(|angles|), Growth(|angles|))
  {
    hide Growth;
    assert 1.0 * 1.0 * Growth(|angles|) == Growth(|angles|);
  }

  lemma GainStep(ca: real, sa: real, t: real, rest: real, whole: real, growth: real, here: real, next: real)
    requires sa == t * ca && Unit(ca, sa)
    requires Undoes(rest, growth, next) && next == here * (1.0 + t * t) && whole == ca * rest
    ensures Undoes(whole, growth, here)
  {
    var cc, rr, f := ca * ca, rest * rest, 1.0 + t * t;
    assert cc * f == 1.0 by {
      assert sa * sa == cc * (t * t);
    }
    assert whole * whole == cc * rr;
    Cancel(cc, rr, growth, here, f);
  }

  lemma Cancel(cc: real, rr: real, growth: real, here: real, f: real)
    requires rr * growth == here * f && cc * f == 1.0
    ensures cc * rr * growth == here
  {
    assert cc * rr * growth == cc * (rr * growth);
    assert cc * (here * f) == (cc * f) * here;
  }

  // What rotary embedding is for: the score of two rotated vectors is that of
  // the originals with only the difference of their angles between them, up to
  // twice the last table entry.
  lemma ScoreIsRelative(angles: seq<real>, c: real -> real, s: real -> real, pi: real, q: Vec, k: Vec, alpha: real,
                        beta: real)
    requires Trig(c, s, pi) && IsArctanTable(angles, c, s) && Covering(angles) && angles[0] == pi / 4.0
    ensures var gain := CosTail(angles, c, 0);
            var slip := Residual(angles, gain, pi, q, alpha) - Residual(angles, gain, pi, k, beta);
            && -2.0 * angles[|angles| - 1] <= slip <= 2.0 * angles[|angles| - 1]
            && Dot(Rotated(angles, gain, pi, q, alpha), Rotated(angles, gain, pi, k, beta))
               == Dot(q, Turned(c, s, beta - alpha + slip, k))
  {
    hide Rotated, Residual, Covering, Turned, Dot;
    var gain := CosTail(angles, c, 0);
    ResidualBound(angles, gain, pi, q, alpha);
    ResidualBound(angles, gain, pi, k, beta);
    RotatedIsRotation(angles, c, s, pi, q, alpha);
    RotatedIsRotation(angles, c, s, pi, k, beta);
    var a, b := alpha - Residual(angles, gain, pi, q, alpha), beta - Residual(angles, gain, pi, k, beta);
    DotOfTurned(c, s, pi, q, k, a, b);
    assert b - a == beta - alpha + (Residual(angles, gain, pi, q, alpha) - Residual(angles, gain, pi, k, beta));
  }

  function Dot(p: Vec, q: Vec): real {
    p.x * q.x + p.y * q.y
  }

  lemma DotOfTurned(c: real -> real, s: real -> real, pi: real, q: Vec, k: Vec, a: real, b: real)
    requires Trig(c, s, pi)
    ensures Dot(Turned(c, s, a, q), Turned(c, s, b, k)) == Dot(q, Turned(c, s, b - a, k))
  {
    TurnedTwice(c, s, pi, a, b - a, k);
    assert a + (b - a) == b;
    Pythagoras(c, s, pi, a);
    hide Trig, Spin, Dot, Unit;
    DotKept(c(a), s(a), q, Turned(c, s, b - a, k));
  }

  lemma DotKept(ca: real, sa: real, p: Vec, q: Vec)
    requires Unit(ca, sa)
    ensures Dot(Spin(ca, sa, p), Spin(ca, sa, q)) == Dot(p, q)
  {
    assert (ca * p.x - sa * p.y) * (ca * q.x - sa * q.y) + (sa * p.x + ca * p.y) * (sa * q.x + ca * q.y)
        == (ca * ca + sa * sa) * (p.x * q.x + p.y * q.y);
  }

  // ---- ties ----

  // An angle that needs no reduction gets none.
  lemma ReducedAlready(theta: real, pi: real)
    requires pi > 0.0 && -pi / 2.0 <= theta <= pi / 2.0
    ensures Reduce(theta, pi) == Reduction(theta, false)
  {
    var f := FullTurns(theta, pi);
    FloorMod(theta, pi);
    if theta >= 0.0 {
      WholeTurns(theta, pi, f, 0);
    } else {
      WholeTurns(theta, pi, f, -1);
    }
  }

  lemma WholeTurns(theta: real, pi: real, f: int, g: int)
    requires pi > 0.0 && 0.0 <= theta - 2.0 * pi * f as real < 2.0 * pi
    requires 0.0 <= theta - 2.0 * pi * g as real < 2.0 * pi
    ensures f == g
  {
    var x, y := 2.0 * pi * f as real, 2.0 * pi * g as real;
    if f > g {
      MoreTurns(2.0 * pi, f, g, x, y);
    } else if g > f {
      MoreTurns(2.0 * pi, g, f, y, x);
    }
  }

  lemma MoreTurns(turn: real, f: int, g: int, x: real, y: real)
    requires turn > 0.0 && f > g && x == turn * f as real && y == turn * g as real
    ensures x - y >= turn
  {
    var d := (f - g) as real;
    assert d >= 1.0 && turn * (d - 1.0) >= 0.0;
    assert x - y == turn * d;
  }

  // Turning towards zero and, at zero, onwards: what is left never reaches the last
  // entry from below, unless it began at the very end of the table's range.
  ghost predicate Below(angles: seq<real>, n: nat, z: real)
    requires n <= |angles| && |angles| > 0
  {
    -(angles[|angles| - 1] + Tail(angles, n)) <= z < angles[|angles| - 1] + Tail(angles, n)
  }

  lemma TurnedBelow(angles: seq<real>, n: nat, s: State)
    requires Covering(angles) && n < |angles| && Below(angles, n, s.z)
    ensures Below(angles, n + 1, Step(s, n, angles[n]).z)
  {
    hide Shear, HalfPower;
  }

  lemma {:induction false} LeftBelow(angles: seq<real>, s: State, n: nat)
    requires Covering(angles) && n <= |angles| && Below(angles, 0, s.z)
    ensures Below(angles, n, Iterate(angles, s, n).z)
  {
    hide Below, Step, Covering;
    if n > 0 {
      LeftBelow(angles, s, n - 1);
      TurnedBelow(angles, n - 1, Iterate(angles, s, n - 1));
    }
  }

  lemma ResidualBelow(angles: seq<real>, gain: real, pi: real, v: Vec, theta: real)
    requires pi > 0.0 && Covering(angles) && angles[|angles| - 1] + Tail(angles, 0) > pi / 2.0
    ensures -angles[|angles| - 1] <= Residual(angles, gain, pi, v, theta) < angles[|angles| - 1]
  {
    ReducedAngle(theta, pi);
    hide Reduce, Iterate;
    LeftBelow(angles, Start(gain, v, Reduce(theta, pi).z), |angles|);
  }
}

/** Gradient noise on a plane of unit cells, over the reals. */
module Noise {

  type Byte = n: int | 0 <= n < 256

  const PERMUTATION: seq<Byte> := [
    151, 160, 137, 91, 90, 15, 131, 13, 201, 95, 96, 53, 194, 233, 7, 225, 140, 36, 103, 30,
    69, 142, 8, 99, 37, 240, 21, 10, 23, 190, 6, 148, 247, 120, 234, 75, 0, 26, 197, 62, 94, 252,
    219, 203, 117, 35, 11, 32, 57, 177, 33, 88, 237, 149, 56, 87, 174, 20, 125, 136, 171, 168,
    68, 175, 74, 165, 71, 134, 139, 48, 27, 166, 77, 146, 158, 231, 83, 111, 229, 122, 60, 211,
    133, 230, 220, 105, 92, 41, 55, 46, 245, 40, 244, 102, 143, 54, 65, 25, 63, 161, 1, 216, 80,
    73, 209, 76, 132, 187, 208, 89, 18, 169, 200, 196, 135, 130, 116, 188, 159, 86, 164, 100, 109,
    198, 173, 186, 3, 64, 52, 217, 226, 250, 124, 123, 5, 202, 38, 147, 118, 126, 255, 82, 85,
    212, 207, 206, 59, 227, 47, 16, 58, 17, 182, 189, 28, 42, 223, 183, 170, 213, 119, 248, 152,
    2, 44, 154, 163, 70, 221, 153, 101, 155, 167, 43, 172, 9, 129, 22, 39, 253, 19, 98, 108, 110,
    79, 113, 224, 232, 178, 185, 112, 104, 218, 246, 97, 228, 251, 34, 242, 193, 238, 210, 144,
    12, 191, 179, 162, 241, 81, 51, 145, 235, 249, 14, 239, 107, 49, 192, 214, 31, 181, 199, 106,
    157, 184, 84, 204, 176, 115, 121, 50, 45, 127, 4, 150, 254, 138, 236, 205, 93, 222, 114, 67,
    29, 24, 72, 243, 141, 128, 195, 78, 66, 215, 61, 156, 180]

  // ----- The table -----

  // A table of 256 bytes, written twice.
  predicate Doubled(p: seq<Byte>) {
    |p| == 512 && forall i :: 0 <= i < 256 ==> p[i + 256] == p[i]
  }

  method WriteTwice(table: seq<Byte>) returns (p: array<Byte>)
    requires |table| == 256
    ensures Doubled(p[..]) && p[..256] == table
  {
    p := new Byte[512];
    for i := 0 to 256
      invariant forall k :: 0 <= k < i ==> p[k] == table[k] && p[k + 256] == table[k]
    {
      p[i] := table[i];
      p[i + 256] := p[i];
    }
  }

  method FillTable() returns (p: array<Byte>)
    ensures Doubled(p[..]) && p[..256] == PERMUTATION
  {
    assert |PERMUTATION| == 256;
    p := WriteTwice(PERMUTATION);
  }

  // ----- One cell -----

  function Fade(t: real): real {
    t * t * t * (t * (t * 6.0 - 15.0) + 10.0)
  }

  function Lerp(a: real, b: real, t: real): real {
    a + t * (b - a)
  }

  function Grad(hash: Byte, x: real, y: real): real {
    var h := hash % 8;
    var u := if h < 4 then x else y;
    var v := if h < 4 then y else x;
    (if h % 2 == 1 then -u else u) + (if (h / 2) % 2 == 1 then -2.0 * v else 2.0 * v)
  }

  /** The hash of a corner; the doubled table makes both indices wrap at 256. */
  function CornerHash(p: seq<Byte>, x: nat, y: nat): (h: Byte)
    requires Doubled(p) && x <= 256 && y <= 256
    ensures h == p[(p[x % 256] + y) % 256]
  {
    p[p[x] + y]
  }

  // The noise at (xf, yf) of the cell whose lower corner is (x, y) modulo 256.
  function CellNoise(p: seq<Byte>, x: Byte, y: Byte, xf: real, yf: real): real
    requires Doubled(p)
  {
    var u, v := Fade(xf), Fade(yf);
    var aa, ab := CornerHash(p, x, y), CornerHash(p, x, y + 1);
    var ba, bb := CornerHash(p, x + 1, y), CornerHash(p, x + 1, y + 1);
    var x1 := Lerp(Grad(aa, xf, yf), Grad(ba, xf - 1.0, yf), u);
    var x2 := Lerp(Grad(ab, xf, yf - 1.0), Grad(bb, xf - 1.0, yf - 1.0), u);
    Lerp(x1, x2, v)
  }

  /** The noise in the integer cell (i, j); `i & 255` is the Euclidean remainder. */
  function NoiseIn(p: seq<Byte>, i: int, j: int, xf: real, yf: real): real
    requires Doubled(p)
  {
    CellNoise(p, i % 256, j % 256, xf, yf)
  }

  function NoiseAt(p: seq<Byte>, x: real, y: real): real
    requires Doubled(p)
  {
    NoiseIn(p, x.Floor, y.Floor, x - x.Floor as real, y - y.Floor as real)
  }

  lemma FadeEnds()
    ensures Fade(0.0) == 0.0 && Fade(1.0) == 1.0
  {
  }

  /** Neighbours in x agree on the whole edge between them, at the wrap too. */
  lemma EdgeInX(p: seq<Byte>, i: int, j: int, yf: real)
    requires Doubled(p)
    ensures NoiseIn(p, i, j, 1.0, yf) == NoiseIn(p, i + 1, j, 0.0, yf)
  {
    hide Grad, Fade;
    FadeEnds();
    var x, x', y := i % 256, (i + 1) % 256, j % 256;
    assert (x + 1) % 256 == x' % 256;
    assert CornerHash(p, x + 1, y) == CornerHash(p, x', y);
    assert CornerHash(p, x + 1, y + 1) == CornerHash(p, x', y + 1);
  }

  /** Neighbours in y agree on the whole edge between them, at the wrap too. */
  lemma EdgeInY(p: seq<Byte>, i: int, j: int, xf: real)
    requires Doubled(p)
    ensures NoiseIn(p, i, j, xf, 1.0) == NoiseIn(p, i, j + 1, xf, 0.0)
  {
    hide Grad, Fade;
    FadeEnds();
    var x, y, y' := i % 256, j % 256, (j + 1) % 256;
    assert (p[x] + (y + 1)) % 256 == (p[x] + y') % 256;
    assert (p[(x + 1) % 256] + (y + 1)) % 256 == (p[(x + 1) % 256] + y') % 256;
    assert CornerHash(p, x, y + 1) == CornerHash(p, x, y');
    assert CornerHash(p, x + 1, y + 1) == CornerHash(p, x + 1, y');
  }

  /** The noise vanishes at every lattice point. */
  lemma ZeroAtLattice(p: seq<Byte>, i: int, j: int)
    requires Doubled(p)
    ensures NoiseAt(p, i as real, j as real) == 0.0
  {
    FadeEnds();
    assert (i as real).Floor == i && (j as real).Floor == j;
  }

  lemma ShiftedCell(x: real, k: int)
    ensures var moved := x + (256 * k) as real;
      moved.Floor % 256 == x.Floor % 256 && moved - moved.Floor as real == x - x.Floor as real
  {
    var moved := x + (256 * k) as real;
    assert moved.Floor == x.Floor + 256 * k;
  }

  /** The field repeats every 256 cells. */
  lemma Repeats(p: seq<Byte>, x: real, y: real, m: int, n: int)
    requires Doubled(p)
    ensures NoiseAt(p, x + (256 * m) as real, y + (256 * n) as real) == NoiseAt(p, x, y)
  {
    ShiftedCell(x, m);
    ShiftedCell(y, n);
  }

  // ----- The field is continuous -----

  function Abs(r: real): real {
    if r < 0.0 then -r else r
  }

  // A bound on how fast the noise changes along either axis.
  const STEEPEST := 722.0

  predicate InUnit(t: real) {
    0.0 <= t <= 1.0
  }

  lemma Distribute(a: real, b: real, c: real)
    ensures a * (b + c) == a * b + a * c
    ensures (b + c) * a == b * a + c * a
  {
  }

  lemma ProductOrder(a: real, b: real, c: real)
    requires a >= 0.0 && b <= c
    ensures a * b <= a * c
  {
  }

  function Power(t: real, n: nat): real {
    if n == 0 then 1.0 else Power(t, n - 1) * t
  }

  lemma LowPowers(t: real)
    ensures Power(t, 3) == t * t * t && Power(t, 4) == t * t * t * t && Power(t, 5) == t * t * t * t * t
  {
    assert Power(t, 0) == 1.0 && Power(t, 1) == t && Power(t, 2) == t * t;
    assert Power(t, 3) == t * t * t;
    assert Power(t, 4) == t * t * t * t;
  }

  lemma FadeExpanded(t: real)
    ensures Fade(t) == 6.0 * Power(t, 5) - 15.0 * Power(t, 4) + 10.0 * Power(t, 3)
  {
    LowPowers(t);
    var t3 := t * t * t;
    var q := t * 6.0 - 15.0;
    assert t * q == 6.0 * (t * t) - 15.0 * t;
    Distribute(t3, t * q, 10.0);
    assert t3 * (t * q) == (t3 * t) * q;
    assert (t3 * t) * q == 6.0 * ((t3 * t) * t) - 15.0 * (t3 * t);
  }

  lemma FadeMirrored(t: real)
    ensures Fade(1.0 - t) == 1.0 - Fade(t)
  {
    var m := 1.0 - t;
    var t2 := t * t;
    var t3 := t2 * t;
    var t4 := t3 * t;
    var t5 := t4 * t;
    var b := m * m * m;
    assert m * m == 1.0 - 2.0 * t + t2;
    assert b == (1.0 - 2.0 * t + t2) * m;
    assert b == 1.0 - 3.0 * t + 3.0 * t2 - t3;
    var bt := b * t;
    assert bt == t - 3.0 * t2 + 3.0 * t3 - t4;
    assert bt * t == t2 - 3.0 * t3 + 3.0 * t4 - t5;
    assert m * 6.0 - 15.0 == -9.0 - 6.0 * t;
    assert m * (m * 6.0 - 15.0) + 10.0 == 1.0 + 3.0 * t + 6.0 * t2;
    assert Fade(m) == b * (1.0 + 3.0 * t + 6.0 * t2);
    assert b * (1.0 + 3.0 * t + 6.0 * t2) == b + 3.0 * bt + 6.0 * (bt * t);
    FadeExpanded(t);
    LowPowers(t);
  }

  lemma FadeIsPositive(t: real)
    requires InUnit(t)
    ensures Fade(t) >= 0.0
  {
    var d := t - 1.25;
    assert d * d >= 0.0;
    var q := t * (t * 6.0 - 15.0) + 10.0;
    assert q == 6.0 * (d * d) + 0.625;
    var c := t * t * t;
    assert t * t >= 0.0 && c >= 0.0;
    assert c * q >= 0.0;
  }

  lemma FadeInUnit(t: real)
    requires InUnit(t)
    ensures InUnit(Fade(t))
  {
    FadeIsPositive(t);
    FadeIsPositive(1.0 - t);
    FadeMirrored(t);
  }

  lemma ProductInUnit(a: real, b: real)
    requires InUnit(a) && InUnit(b)
    ensures InUnit(a * b)
  {
    ProductOrder(a, b, 1.0);
    assert a * b <= a;
    assert a * b >= 0.0;
  }

  lemma Scaled(a: real, b: real, k: real)
    requires InUnit(a) && Abs(b) <= k
    ensures Abs(a * b) <= k
  {
    var c := Abs(b);
    ProductOrder(c, 0.0, a);
    ProductOrder(c, a, 1.0);
    assert c * 0.0 == 0.0 && c * 1.0 == c;
    assert a * b == if b < 0.0 then -(c * a) else c * a;
  }

  lemma SplitProduct(a: real, a': real, b: real, b': real)
    ensures a' * b' - a * b == a' * (b' - b) + b * (a' - a)
  {
    Distribute(a', b' - b, b);
    Distribute(b, a' - a, a);
  }

  // A product changes by at most the changes of its factors, when these lie in the unit interval.
  lemma ProductSteep(a: real, a': real, b: real, b': real, p: real, q: real)
    requires InUnit(b) && InUnit(a') && Abs(a' - a) <= p && Abs(b' - b) <= q
    ensures Abs(a' * b' - a * b) <= p + q
  {
    var da, db := a' - a, b' - b;
    Scaled(a', db, q);
    Scaled(b, da, p);
    SplitProduct(a, a', b, b');
  }

  lemma PowerUnfolds(t: real, n: nat)
    ensures Power(t, n) == if n == 0 then 1.0 else Power(t, n - 1) * t
  {
  }

  lemma {:induction false} PowerSteep(s: real, t: real, n: nat)
    requires InUnit(s) && InUnit(t)
    ensures InUnit(Power(t, n)) && Abs(Power(t, n) - Power(s, n)) <= n as real * Abs(t - s)
    decreases n
  {
    hide Power;
    PowerUnfolds(s, n);
    PowerUnfolds(t, n);
    if n > 0 {
      var d := Abs(t - s);
      PowerSteep(s, t, n - 1);
      NextPowerSteep(Power(s, n - 1), Power(t, n - 1), s, t, n, d);
    }
  }

  lemma NextPowerSteep(sn: real, tn: real, s: real, t: real, n: nat, d: real)
    requires n >= 1 && InUnit(s) && InUnit(t) && InUnit(tn) && d == Abs(t - s)
    requires Abs(tn - sn) <= (n - 1) as real * d
    ensures InUnit(tn * t) && Abs(tn * t - sn * s) <= n as real * d
  {
    var k := (n - 1) as real;
    ProductInUnit(tn, t);
    ProductSteep(sn, tn, s, t, k * d, d);
    Distribute(d, k, 1.0);
  }

  /** The fade changes at most 120 times as fast as its argument. */
  lemma FadeSteep(s: real, t: real)
    requires InUnit(s) && InUnit(t)
    ensures Abs(Fade(t) - Fade(s)) <= 120.0 * Abs(t - s)
  {
    hide Fade, Power;
    FadeExpanded(s);
    FadeExpanded(t);
    PowerSteep(s, t, 3);
    PowerSteep(s, t, 4);
    PowerSteep(s, t, 5);
    Combined(Power(s, 3), Power(s, 4), Power(s, 5), Power(t, 3), Power(t, 4), Power(t, 5), Abs(t - s));
  }

  lemma Combined(s3: real, s4: real, s5: real, t3: real, t4: real, t5: real, d: real)
    requires Abs(t3 - s3) <= 3.0 * d && Abs(t4 - s4) <= 4.0 * d && Abs(t5 - s5) <= 5.0 * d
    ensures Abs((6.0 * t5 - 15.0 * t4 + 10.0 * t3) - (6.0 * s5 - 15.0 * s4 + 10.0 * s3)) <= 120.0 * d
  {
  }

  lemma GradSteep(h: Byte, x: real, y: real, x': real, y': real)
    ensures Abs(Grad(h, x', y') - Grad(h, x, y)) <= 2.0 * (Abs(x' - x) + Abs(y' - y))
  {
  }

  lemma GradBounded(h: Byte, x: real, y: real)
    requires -1.0 <= x <= 1.0 && -1.0 <= y <= 1.0
    ensures Abs(Grad(h, x, y)) <= 3.0
  {
  }

  lemma WeightedUpTo(a: real, b: real, t: real, k: real)
    requires InUnit(t) && a <= k && b <= k
    ensures (1.0 - t) * a + t * b <= k
  {
    var s := 1.0 - t;
    ProductOrder(s, a, k);
    ProductOrder(t, b, k);
    var sa, tb, sk, tk := s * a, t * b, s * k, t * k;
    Distribute(k, s, t);
    assert sk + tk == k;
    assert sa <= sk && tb <= tk;
    assert (1.0 - t) * a + t * b == sa + tb;
  }

  lemma LerpBetween(a: real, b: real, t: real, k: real)
    requires InUnit(t) && Abs(a) <= k && Abs(b) <= k
    ensures Abs(Lerp(a, b, t)) <= k
  {
    WeightedUpTo(a, b, t, k);
    WeightedUpTo(-a, -b, t, k);
    assert Lerp(a, b, t) == (1.0 - t) * a + t * b;
    assert (1.0 - t) * -a + t * -b == -((1.0 - t) * a + t * b);
  }

  lemma AbsProduct(a: real, b: real, k: real)
    requires Abs(a) <= k && Abs(b) <= 6.0
    ensures Abs(a * b) <= 6.0 * k
  {
    var x, y := Abs(a), Abs(b);
    assert a * b == x * y || a * b == -(x * y);
    ProductOrder(x, 0.0, y);
    ProductOrder(x, y, 6.0);
  }

  /** An interpolation changes no more than its ends, plus the change of its weight times their distance. */
  lemma LerpSteep(a: real, b: real, t: real, a': real, b': real, t': real, p: real, q: real)
    requires InUnit(t) && Abs(a' - a) <= p && Abs(b' - b) <= p && Abs(t' - t) <= q && Abs(b' - a') <= 6.0
    ensures Abs(Lerp(a', b', t') - Lerp(a, b, t)) <= p + 6.0 * q
  {
    var da, db, dt, w := a' - a, b' - b, t' - t, b' - a';
    assert t' * w == t * w + dt * w;
    assert t * w == t * (b - a) + t * (db - da);
    assert Lerp(a', b', t') - Lerp(a, b, t) == Lerp(da, db, t) + dt * w;
    LerpBetween(da, db, t, p);
    AbsProduct(dt, w, q);
  }

  // ----- Steepness within a cell -----

  lemma CellSteepInX(p: seq<Byte>, x: Byte, y: Byte, xf: real, xf': real, yf: real)
    requires Doubled(p) && InUnit(xf) && InUnit(xf') && InUnit(yf)
    ensures Abs(CellNoise(p, x, y, xf', yf) - CellNoise(p, x, y, xf, yf)) <= STEEPEST * Abs(xf' - xf)
  {
    var d := Abs(xf' - xf);
    var aa, ab := CornerHash(p, x, y), CornerHash(p, x, y + 1);
    var ba, bb := CornerHash(p, x + 1, y), CornerHash(p, x + 1, y + 1);
    var u, u', v := Fade(xf), Fade(xf'), Fade(yf);
    FadeInUnit(xf);
    FadeInUnit(yf);
    FadeSteep(xf, xf');
    RowSteep(aa, ba, xf, xf', yf, d);
    RowSteep(ab, bb, xf, xf', yf - 1.0, d);
    var x1 := Lerp(Grad(aa, xf, yf), Grad(ba, xf - 1.0, yf), u);
    var x2 := Lerp(Grad(ab, xf, yf - 1.0), Grad(bb, xf - 1.0, yf - 1.0), u);
    var x1' := Lerp(Grad(aa, xf', yf), Grad(ba, xf' - 1.0, yf), u');
    var x2' := Lerp(Grad(ab, xf', yf - 1.0), Grad(bb, xf' - 1.0, yf - 1.0), u');
    LerpDifference(x1, x2, x1', x2', v);
    LerpBetween(x1' - x1, x2' - x2, v, STEEPEST * d);
  }

  lemma LerpDifference(a: real, b: real, a': real, b': real, t: real)
    ensures Lerp(a', b', t) - Lerp(a, b, t) == Lerp(a' - a, b' - b, t)
  {
  }

  // The interpolation along x between two corners at the same height.
  lemma RowSteep(h: Byte, h': Byte, xf: real, xf': real, yf: real, d: real)
    requires InUnit(xf) && InUnit(xf') && -1.0 <= yf <= 1.0 && d == Abs(xf' - xf)
    ensures Abs(Lerp(Grad(h, xf', yf), Grad(h', xf' - 1.0, yf), Fade(xf'))
                - Lerp(Grad(h, xf, yf), Grad(h', xf - 1.0, yf), Fade(xf))) <= STEEPEST * d
  {
    FadeInUnit(xf);
    FadeSteep(xf, xf');
    GradSteep(h, xf, yf, xf', yf);
    GradSteep(h', xf - 1.0, yf, xf' - 1.0, yf);
    GradBounded(h, xf', yf);
    GradBounded(h', xf' - 1.0, yf);
    LerpSteep(Grad(h, xf, yf), Grad(h', xf - 1.0, yf), Fade(xf),
              Grad(h, xf', yf), Grad(h', xf' - 1.0, yf), Fade(xf'), 2.0 * d, 120.0 * d);
  }

  lemma CellSteepInY(p: seq<Byte>, x: Byte, y: Byte, xf: real, yf: real, yf': real)
    requires Doubled(p) && InUnit(xf) && InUnit(yf) && InUnit(yf')
    ensures Abs(CellNoise(p, x, y, xf, yf') - CellNoise(p, x, y, xf, yf)) <= STEEPEST * Abs(yf' - yf)
  {
    var d := Abs(yf' - yf);
    var aa, ab := CornerHash(p, x, y), CornerHash(p, x, y + 1);
    var ba, bb := CornerHash(p, x + 1, y), CornerHash(p, x + 1, y + 1);
    FadeInUnit(xf);
    FadeInUnit(yf);
    FadeSteep(yf, yf');
    var x1, x1' := RowAtHeights(aa, ba, xf, yf, yf', d);
    var x2, x2' := RowAtHeights(ab, bb, xf, yf - 1.0, yf' - 1.0, d);
    LerpSteep(x1, x2, Fade(yf), x1', x2', Fade(yf'), 2.0 * d, 120.0 * d);
  }

  // The same row at two heights: each end and so each point changes at most twice as fast as the height.
  lemma RowAtHeights(h: Byte, h': Byte, xf: real, yf: real, yf': real, d: real) returns (row: real, row': real)
    requires InUnit(xf) && -1.0 <= yf <= 1.0 && -1.0 <= yf' <= 1.0 && d == Abs(yf' - yf)
    ensures row == Lerp(Grad(h, xf, yf), Grad(h', xf - 1.0, yf), Fade(xf))
    ensures row' == Lerp(Grad(h, xf, yf'), Grad(h', xf - 1.0, yf'), Fade(xf))
    ensures Abs(row' - row) <= 2.0 * d && Abs(row') <= 3.0
  {
    FadeInUnit(xf);
    row := Lerp(Grad(h, xf, yf), Grad(h', xf - 1.0, yf), Fade(xf));
    row' := Lerp(Grad(h, xf, yf'), Grad(h', xf - 1.0, yf'), Fade(xf));
    GradSteep(h, xf, yf, xf, yf');
    GradSteep(h', xf - 1.0, yf, xf - 1.0, yf');
    GradBounded(h, xf, yf');
    GradBounded(h', xf - 1.0, yf');
    LerpDifference(Grad(h, xf, yf), Grad(h', xf - 1.0, yf), Grad(h, xf, yf'), Grad(h', xf - 1.0, yf'), Fade(xf));
    LerpBetween(Grad(h, xf, yf') - Grad(h, xf, yf), Grad(h', xf - 1.0, yf') - Grad(h', xf - 1.0, yf), Fade(xf), 2.0 * d);
    LerpBetween(Grad(h, xf, yf'), Grad(h', xf - 1.0, yf'), Fade(xf), 3.0);
  }

  // ----- Steepness across cells -----

  // Noise given cell by cell.
  type Cells = (int, int, real, real) -> real

  function At(c: Cells, x: real, y: real): real {
    c(x.Floor, y.Floor, x - x.Floor as real, y - y.Floor as real)
  }

  ghost predicate GluedInX(c: Cells) {
    forall i, j, yf :: c(i, j, 1.0, yf) == c(i + 1, j, 0.0, yf)
  }

  ghost predicate GluedInY(c: Cells) {
    forall i, j, xf :: c(i, j, xf, 1.0) == c(i, j + 1, xf, 0.0)
  }

  ghost predicate SteepInX(c: Cells) {
    forall i, j, s, t, yf :: InUnit(s) && InUnit(t) && InUnit(yf) ==>
      Abs(c(i, j, t, yf) - c(i, j, s, yf)) <= STEEPEST * Abs(t - s)
  }

  ghost predicate SteepInY(c: Cells) {
    forall i, j, s, t, xf :: InUnit(s) && InUnit(t) && InUnit(xf) ==>
      Abs(c(i, j, xf, t) - c(i, j, xf, s)) <= STEEPEST * Abs(t - s)
  }

  ghost predicate Smooth(c: Cells) {
    GluedInX(c) && SteepInX(c) && GluedInY(c) && SteepInY(c)
  }

  lemma {:induction false} AlongX(c: Cells, s: real, t: real, y: real)
    requires GluedInX(c) && SteepInX(c) && s <= t
    ensures Abs(At(c, t, y) - At(c, s, y)) <= STEEPEST * (t - s)
    decreases t.Floor - s.Floor
  {
    var i, j, yf := s.Floor, y.Floor, y - y.Floor as real;
    if t.Floor == i {
      assert Abs(c(i, j, t - i as real, yf) - c(i, j, s - i as real, yf)) <= STEEPEST * (t - s);
    } else {
      var edge := (i + 1) as real;
      assert edge.Floor == i + 1;
      assert At(c, edge, y) == c(i, j, 1.0, yf);
      assert Abs(c(i, j, 1.0, yf) - c(i, j, s - i as real, yf)) <= STEEPEST * (edge - s);
      AlongX(c, edge, t, y);
    }
  }

  lemma {:induction false} AlongY(c: Cells, x: real, s: real, t: real)
    requires GluedInY(c) && SteepInY(c) && s <= t
    ensures Abs(At(c, x, t) - At(c, x, s)) <= STEEPEST * (t - s)
    decreases t.Floor - s.Floor
  {
    var i, j, xf := x.Floor, s.Floor, x - x.Floor as real;
    if t.Floor == j {
      assert Abs(c(i, j, xf, t - j as real) - c(i, j, xf, s - j as real)) <= STEEPEST * (t - s);
    } else {
      var edge := (j + 1) as real;
      assert edge.Floor == j + 1;
      assert At(c, x, edge) == c(i, j, xf, 1.0);
      assert Abs(c(i, j, xf, 1.0) - c(i, j, xf, s - j as real)) <= STEEPEST * (edge - s);
      AlongY(c, x, edge, t);
    }
  }

  lemma AlongBoth(c: Cells, x: real, y: real, x': real, y': real)
    requires Smooth(c)
    ensures Abs(At(c, x', y') - At(c, x, y)) <= STEEPEST * (Abs(x' - x) + Abs(y' - y))
  {
    if x <= x' { AlongX(c, x, x', y); } else { AlongX(c, x', x, y); }
    if y <= y' { AlongY(c, x', y, y'); } else { AlongY(c, x', y', y); }
  }

  function CellsOf(p: seq<Byte>): Cells
    requires Doubled(p)
  {
    (i, j, xf, yf) => NoiseIn(p, i, j, xf, yf)
  }

  lemma NoiseIsGluedInX(p: seq<Byte>)
    requires Doubled(p)
    ensures GluedInX(CellsOf(p))
  {
    hide CellNoise;
    var c := CellsOf(p);
    forall i, j, yf ensures c(i, j, 1.0, yf) == c(i + 1, j, 0.0, yf) {
      EdgeInX(p, i, j, yf);
    }
  }

  lemma NoiseIsGluedInY(p: seq<Byte>)
    requires Doubled(p)
    ensures GluedInY(CellsOf(p))
  {
    hide CellNoise;
    var c := CellsOf(p);
    forall i, j, xf ensures c(i, j, xf, 1.0) == c(i, j + 1, xf, 0.0) {
      EdgeInY(p, i, j, xf);
    }
  }

  lemma NoiseIsSteepInX(p: seq<Byte>)
    requires Doubled(p)
    ensures SteepInX(CellsOf(p))
  {
    var c := CellsOf(p);
    forall i, j, s, t, yf | InUnit(s) && InUnit(t) && InUnit(yf)
      ensures Abs(c(i, j, t, yf) - c(i, j, s, yf)) <= STEEPEST * Abs(t - s)
    {
      CellSteepInX(p, i % 256, j % 256, s, t, yf);
    }
  }

  lemma NoiseIsSteepInY(p: seq<Byte>)
    requires Doubled(p)
    ensures SteepInY(CellsOf(p))
  {
    var c := CellsOf(p);
    forall i, j, s, t, xf | InUnit(s) && InUnit(t) && InUnit(xf)
      ensures Abs(c(i, j, xf, t) - c(i, j, xf, s)) <= STEEPEST * Abs(t - s)
    {
      CellSteepInY(p, i % 256, j % 256, xf, s, t);
    }
  }

  lemma NoiseIsSmooth(p: seq<Byte>) returns (c: Cells)
    requires Doubled(p)
    ensures Smooth(c) && c == CellsOf(p)
  {
    c := CellsOf(p);
    NoiseIsGluedInX(p);
    NoiseIsGluedInY(p);
    NoiseIsSteepInX(p);
    NoiseIsSteepInY(p);
  }

  /** The field has no jumps anywhere: between two points it changes by at most a constant times their distance. */
  lemma NoiseIsContinuous(p: seq<Byte>, x: real, y: real, x': real, y': real)
    requires Doubled(p)
    ensures Abs(NoiseAt(p, x', y') - NoiseAt(p, x, y)) <= STEEPEST * (Abs(x' - x) + Abs(y' - y))
  {
    hide CellNoise;
    var c := NoiseIsSmooth(p);
    AlongBoth(c, x, y, x', y');
  }
  // ----- The noise in plain terms -----

  // The gradient a hash stands for: one of eight.
  function GradientOf(hash: Byte): (real, real) {
    match hash % 8
    case 0 => (1.0, 2.0)
    case 1 => (-1.0, 2.0)
    case 2 => (1.0, -2.0)
    case 3 => (-1.0, -2.0)
    case 4 => (2.0, 1.0)
    case 5 => (2.0, -1.0)
    case 6 => (-2.0, 1.0)
    case _ => (-2.0, -1.0)
  }

  // The ramp towards the point (x, y) along the gradient of a corner at (cx, cy).
  function Ramp(hash: Byte, x: real, y: real, cx: real, cy: real): real {
    GradientOf(hash).0 * (x - cx) + GradientOf(hash).1 * (y - cy)
  }

  lemma GradIsRamp(hash: Byte, x: real, y: real)
    ensures Grad(hash, x, y) == GradientOf(hash).0 * x + GradientOf(hash).1 * y
    ensures Grad(hash, x, y) == Ramp(hash, x, y, 0.0, 0.0)
    ensures Grad(hash, x, y) == Ramp(hash, x + 1.0, y, 1.0, 0.0) == Ramp(hash, x, y + 1.0, 0.0, 1.0)
    ensures Grad(hash, x, y) == Ramp(hash, x + 1.0, y + 1.0, 1.0, 1.0)
  {
    assert x + 1.0 - 1.0 == x && y + 1.0 - 1.0 == y;
  }

  lemma FadeIs(t: real)
    ensures Fade(t) == 6.0 * (t * t * t * t * t) - 15.0 * (t * t * t * t) + 10.0 * (t * t * t)
  {
    FadeExpanded(t);
  }

  // The mean of four corner values, weighted by `u` across and by `v` up.
  function Weighted(a: real, b: real, c: real, d: real, u: real, v: real): real {
    (1.0 - v) * ((1.0 - u) * a + u * b) + v * ((1.0 - u) * c + u * d)
  }

  lemma LerpIs(a: real, b: real, t: real)
    ensures Lerp(a, b, t) == (1.0 - t) * a + t * b
  {
  }

  lemma TwoRows(a: real, b: real, c: real, d: real, u: real, v: real)
    ensures Lerp(Lerp(a, b, u), Lerp(c, d, u), v) == Weighted(a, b, c, d, u, v)
  {
    LerpIs(a, b, u);
    LerpIs(c, d, u);
    LerpIs(Lerp(a, b, u), Lerp(c, d, u), v);
    hide Lerp;
  }

  // The hash of the lattice point (a, b).
  function HashAt(p: seq<Byte>, a: int, b: int): Byte
    requires Doubled(p)
  {
    p[(p[a % 256] + b % 256) % 256]
  }

  lemma SameRemainder(h: int, b: int, j: int)
    requires b % 256 == j % 256
    ensures (h + b) % 256 == (h + j % 256) % 256
  {
    assert h + b == h + j % 256 + 256 * (b / 256);
  }

  lemma NextRemainder(j: int)
    ensures (j % 256 + 1) % 256 == (j + 1) % 256
  {
  }

  lemma CornerIs(p: seq<Byte>, a: nat, b: nat, i: int, j: int)
    requires Doubled(p) && a <= 256 && b <= 256 && a % 256 == i % 256 && b % 256 == j % 256
    ensures CornerHash(p, a, b) == HashAt(p, i, j)
  {
    SameRemainder(p[i % 256], b, j);
  }

  /** The noise is the ramps of the four corners, each weighted by the fade of the distance to it. */
  lemma NoiseIsWeightedRamps(p: seq<Byte>, i: int, j: int, x: real, y: real)
    requires Doubled(p)
    ensures NoiseIn(p, i, j, x, y)
         == Weighted(Ramp(HashAt(p, i, j), x, y, 0.0, 0.0), Ramp(HashAt(p, i + 1, j), x, y, 1.0, 0.0),
                     Ramp(HashAt(p, i, j + 1), x, y, 0.0, 1.0), Ramp(HashAt(p, i + 1, j + 1), x, y, 1.0, 1.0),
                     Fade(x), Fade(y))
  {
    var m, n := i % 256, j % 256;
    NextRemainder(i);
    NextRemainder(j);
    hide Grad, Fade, Lerp, HashAt, CornerHash, GradientOf, Weighted;
    CornerIs(p, m, n, i, j);
    CornerIs(p, m, n + 1, i, j + 1);
    CornerIs(p, m + 1, n, i + 1, j);
    CornerIs(p, m + 1, n + 1, i + 1, j + 1);
    CellIsWeighted(p, m, n, x, y);
  }

  lemma CellIsWeighted(p: seq<Byte>, m: Byte, n: Byte, x: real, y: real)
    requires Doubled(p)
    ensures CellNoise(p, m, n, x, y)
         == Weighted(Ramp(CornerHash(p, m, n), x, y, 0.0, 0.0), Ramp(CornerHash(p, m + 1, n), x, y, 1.0, 0.0),
                     Ramp(CornerHash(p, m, n + 1), x, y, 0.0, 1.0), Ramp(CornerHash(p, m + 1, n + 1), x, y, 1.0, 1.0),
                     Fade(x), Fade(y))
  {
    GradIsRamp(CornerHash(p, m, n), x, y);
    GradIsRamp(CornerHash(p, m + 1, n), x - 1.0, y);
    GradIsRamp(CornerHash(p, m, n + 1), x, y - 1.0);
    GradIsRamp(CornerHash(p, m + 1, n + 1), x - 1.0, y - 1.0);
    hide Grad, Fade, Lerp, CornerHash, GradientOf, Weighted;
    TwoRows(Grad(CornerHash(p, m, n), x, y), Grad(CornerHash(p, m + 1, n), x - 1.0, y),
            Grad(CornerHash(p, m, n + 1), x, y - 1.0), Grad(CornerHash(p, m + 1, n + 1), x - 1.0, y - 1.0), Fade(x), Fade(y));
  }
}

/** The line drawing of cutinto8.c. */
module DrawLine {

  datatype Pixel = Pixel(x: int, y: int)

  const INT_MAX: int := 0x7FFF_FFFF

  function Abs(a: int): int {
    if a < 0 then -a else a
  }

  function Max(a: int, b: int): int {
    if a > b then a else b
  }

  /** Twice the distance of a pixel from the line between the end points, along the
      shorter side, times the longer side. */
  function Twice(p: Pixel, x0: int, y0: int, x1: int, y1: int): int {
    2 * Abs((p.y - y0) * (x1 - x0) - (p.x - x0) * (y1 - y0))
  }

  predicate Neighbours(p: Pixel, q: Pixel) {
    p != q && Abs(p.x - q.x) <= 1 && Abs(p.y - q.y) <= 1
  }

  /** The pixels from one end point to the other: as many as the longer side needs, each
      next to the one before, each within half a pixel of the line. */
  ghost predicate IsLine(ps: seq<Pixel>, x0: int, y0: int, x1: int, y1: int) {
    && |ps| == Max(Abs(x1 - x0), Abs(y1 - y0)) + 1
    && ps[0] == Pixel(x0, y0) && ps[|ps| - 1] == Pixel(x1, y1)
    && (forall k :: 0 < k < |ps| ==> Neighbours(ps[k - 1], ps[k]))
    && (forall k :: 0 <= k < |ps| ==> Close(ps[k], x0, y0, x1, y1))
  }

  ghost predicate Close(p: Pixel, x0: int, y0: int, x1: int, y1: int) {
    Twice(p, x0, y0, x1, y1) <= Max(Abs(x1 - x0), Abs(y1 - y0))
  }

  /** After `k` steps along the longer side `big` and `m` along the shorter side `small`,
      the error term is in range just when `m` is the nearest to the line. */
  ghost predicate Nearest(k: int, m: int, big: int, small: int) {
    0 <= big / 2 - k * small + m * big < big
  }

  lemma Minus(a: int, b: int, c: int)
    ensures (a - b) * c == a * c - b * c
  {}

  lemma AtLeast(a: int, c: int)
    requires 1 <= a && 0 <= c
    ensures c <= a * c
  {
    assert (a - 1) * c >= 0;
    Minus(a, 1, c);
  }

  lemma NearestStep(k: int, m: int, big: int, small: int)
    requires Nearest(k, m, big, small) && 0 <= small <= big && 0 < big
    ensures var err := big / 2 - k * small + m * big;
            if err < small then Nearest(k + 1, m + 1, big, small) && big / 2 - (k + 1) * small + (m + 1) * big == err - small + big
            else Nearest(k + 1, m, big, small) && big / 2 - (k + 1) * small + m * big == err - small
  {
    Minus(k + 1, 1, small);
    Minus(m + 1, 1, big);
  }

  /** At the end of the longer side the shorter side is done as well. */
  lemma NearestEnd(m: int, big: int, small: int)
    requires 0 < big && Nearest(big, m, big, small)
    ensures m == small
  {
    Minus(m, small, big);
    Minus(small, m, big);
    if m > small {
      AtLeast(m - small, big);
    } else if m < small {
      AtLeast(small - m, big);
    }
  }

  /** Steps along the shorter side never overshoot. */
  lemma NearestBound(k: int, m: int, big: int, small: int)
    requires 0 <= k < big && 0 <= small <= big && Nearest(k, m, big, small)
    ensures 0 <= m <= small
  {
    Product(k, small);
    Product(big - k, small);
    Minus(big, k, small);
    Minus(m, small, big);
    Minus(0, m, big);
    if m < 0 {
      AtLeast(-m, big);
    } else if m > small {
      AtLeast(m - small, big);
    }
  }

  lemma Product(a: int, b: int)
    requires 0 <= a && 0 <= b
    ensures 0 <= a * b
  {}

  /** Nearest means within half a pixel. */
  lemma NearestClose(k: int, m: int, big: int, small: int)
    requires 0 < big && Nearest(k, m, big, small)
    ensures 2 * Abs(m * big - k * small) <= big
  {}

  /** Where the drawing is after `k` steps, `m` of them also along the shorter side. */
  ghost predicate Here(x0: int, y0: int, x1: int, y1: int, k: int, m: int, x: int, y: int, err: int) {
    var dx, sx := Abs(x1 - x0), if x0 < x1 then 1 else -1;
    var dy, sy := Abs(y1 - y0), if y0 < y1 then 1 else -1;
    var big, small := Max(dx, dy), if dx > dy then dy else dx;
    && 0 <= k <= big && 0 <= m <= small && (big > 0 ==> Nearest(k, m, big, small))
    && (if dx > dy then x == x0 + k * sx && y == y0 + m * sy && err == big / 2 - k * small + m * big
        else y == y0 + k * sy && x == x0 + m * sx && -err == big / 2 - k * small + m * big)
  }

  lemma Start(x0: int, y0: int, x1: int, y1: int)
    ensures var dx, dy := Abs(x1 - x0), Abs(y1 - y0);
            Here(x0, y0, x1, y1, 0, 0, x0, y0, if dx > dy then dx / 2 else -(dy / 2))
  {}

  /** What one round of the loop does. */
  ghost predicate Stepped(x0: int, y0: int, x1: int, y1: int, k: int, m: int, x: int, y: int, err: int) {
    var dx, sx := Abs(x1 - x0), if x0 < x1 then 1 else -1;
    var dy, sy := Abs(y1 - y0), if y0 < y1 then 1 else -1;
    var up, along := err < dy, err > -dx;
    var x', y' := if along then x + sx else x, if up then y + sy else y;
    && (if dx > dy then 0 <= err < dx else -dy < err <= 0) && Neighbours(Pixel(x, y), Pixel(x', y'))
    && Here(x0, y0, x1, y1, k + 1, if (if dx > dy then up else along) then m + 1 else m, x', y',
            (if up then err + dx else err) - (if along then dy else 0))
  }

  lemma StepBound(k: int, m: int, big: int, small: int)
    requires 0 <= k < big && 0 <= small <= big && Nearest(k, m, big, small)
    ensures var m' := if big / 2 - k * small + m * big < small then m + 1 else m;
            && 0 <= m' <= small && Nearest(k + 1, m', big, small)
            && big / 2 - (k + 1) * small + m' * big == big / 2 - k * small + m * big - small + (if m' == m + 1 then big else 0)
  {
    NearestStep(k, m, big, small);
    var m' := if big / 2 - k * small + m * big < small then m + 1 else m;
    if k + 1 < big {
      NearestBound(k + 1, m', big, small);
    } else {
      NearestEnd(m', big, small);
    }
  }

  lemma OneMore(k: int, s: int)
    ensures (k + 1) * s == k * s + s
  {}

  lemma StepWide(x0: int, y0: int, x1: int, y1: int, k: int, m: int, x: int, y: int, err: int)
    requires Here(x0, y0, x1, y1, k, m, x, y, err) && k < Max(Abs(x1 - x0), Abs(y1 - y0)) && Abs(x1 - x0) > Abs(y1 - y0)
    ensures Stepped(x0, y0, x1, y1, k, m, x, y, err)
  {
    hide Nearest;
    var dx, dy := Abs(x1 - x0), Abs(y1 - y0);
    StepBound(k, m, dx, dy);
    InRange(k, m, dx, dy);
    OneMore(k, if x0 < x1 then 1 else -1);
    OneMore(m, if y0 < y1 then 1 else -1);
  }

  lemma StepTall(x0: int, y0: int, x1: int, y1: int, k: int, m: int, x: int, y: int, err: int)
    requires Here(x0, y0, x1, y1, k, m, x, y, err) && k < Max(Abs(x1 - x0), Abs(y1 - y0)) && Abs(x1 - x0) <= Abs(y1 - y0)
    ensures Stepped(x0, y0, x1, y1, k, m, x, y, err)
  {
    hide Nearest;
    var dx, dy := Abs(x1 - x0), Abs(y1 - y0);
    StepBound(k, m, dy, dx);
    InRange(k, m, dy, dx);
    OneMore(k, if y0 < y1 then 1 else -1);
    OneMore(m, if x0 < x1 then 1 else -1);
  }

  /** One round of the loop. */
  lemma Step(x0: int, y0: int, x1: int, y1: int, k: int, m: int, x: int, y: int, err: int)
    requires Here(x0, y0, x1, y1, k, m, x, y, err) && k < Max(Abs(x1 - x0), Abs(y1 - y0))
    ensures Stepped(x0, y0, x1, y1, k, m, x, y, err)
  {
    hide Here, Stepped;
    if Abs(x1 - x0) > Abs(y1 - y0) {
      StepWide(x0, y0, x1, y1, k, m, x, y, err);
    } else {
      StepTall(x0, y0, x1, y1, k, m, x, y, err);
    }
  }

  lemma InRange(k: int, m: int, big: int, small: int)
    requires Nearest(k, m, big, small)
    ensures 0 <= big / 2 - k * small + m * big < big
  {}

  /** The end point is reached exactly at the end of the longer side. */
  lemma AtEnd(x0: int, y0: int, x1: int, y1: int, k: int, m: int, x: int, y: int, err: int)
    requires Here(x0, y0, x1, y1, k, m, x, y, err)
    ensures x == x1 && y == y1 <==> k == Max(Abs(x1 - x0), Abs(y1 - y0))
    ensures Close(Pixel(x, y), x0, y0, x1, y1)
  {
    hide Close, Nearest;
    var dx, sx := Abs(x1 - x0), if x0 < x1 then 1 else -1;
    var dy, sy := Abs(y1 - y0), if y0 < y1 then 1 else -1;
    var big, small := Max(dx, dy), if dx > dy then dy else dx;
    CloseHere(x0, y0, x1, y1, x, y, sx, sy, k, m);
    if k == big && big > 0 {
      NearestEnd(m, big, small);
    }
  }

  // ----- overflow

  function Gcd(a: nat, b: nat): (g: nat)
    requires 0 < a
    ensures 0 < g
    decreases b
  {
    if b == 0 then a else Gcd(b, a % b)
  }

  /** The divisor as a combination of the two numbers, and they as multiples of it. */
  lemma {:induction false} Bezout(a: nat, b: nat) returns (s: int, t: int, p: nat, q: nat)
    requires 0 < a
    ensures 0 < Gcd(a, b) && s * a + t * b == Gcd(a, b) && a == p * Gcd(a, b) && b == q * Gcd(a, b)
    decreases b
  {
    if b == 0 {
      return 1, 0, 1, 0;
    }
    var c, r, g := a / b, a % b, Gcd(a, b);
    Divided(a, b);
    var s', t', p', q' := Bezout(b, r);
    BezoutStep(a, b, c, r, s', t', p', q', g);
    return t', s' - t' * c, c * p' + q', p';
  }

  lemma BezoutStep(a: nat, b: nat, c: nat, r: nat, s: int, t: int, p: nat, q: nat, g: nat)
    requires a == c * b + r && s * b + t * r == g && b == p * g && r == q * g
    ensures t * a + (s - t * c) * b == g && a == (c * p + q) * g && 0 <= c * p + q
  {
    Combine(a, b, c, r, s, t);
    Multiple(c, p, q, g);
    Product(c, p);
  }

  lemma Assoc(a: int, b: int, c: int)
    ensures a * (b * c) == a * b * c
  {}

  lemma Plus(a: int, b: int, c: int)
    ensures a * (b + c) == a * b + a * c
  {}

  lemma Combine(a: int, b: int, c: int, r: int, s: int, t: int)
    requires a == c * b + r
    ensures t * a + (s - t * c) * b == s * b + t * r
  {
    Plus(t, c * b, r);
    Assoc(t, c, b);
    Minus(s, t * c, b);
  }

  lemma Multiple(c: int, p: int, q: int, g: int)
    ensures c * (p * g) + q * g == (c * p + q) * g
  {
    Assoc(c, p, g);
    Minus(c * p + q, q, g);
  }

  /** The largest value below `dy` that the error term of a line wider than tall takes. */
  function Largest(dx: nat, dy: nat): int
    requires 0 < dx
  {
    var g := Gcd(dx, dy);
    dy - g + dx / 2 % g
  }

  lemma LargestIs(dx: nat, dy: nat, p: nat, q: nat)
    requires 0 < dx && 0 < Gcd(dx, dy) && dx == p * Gcd(dx, dy) && dy == q * Gcd(dx, dy)
    ensures var g := Gcd(dx, dy);
            && Largest(dx, dy) == (q - 1) * g + dx / 2 % g == dx / 2 - (dx / 2 / g - q + 1) * g
            && Largest(dx, dy) < dy && (0 < dy ==> 0 <= Largest(dx, dy))
  {
    var g := Gcd(dx, dy);
    Minus(q, 1, g);
    Minus(dx / 2 / g, q - 1, g);
    if 0 < dy {
      AtLeast(q, g);
    }
  }

  /** No value below `dy` is larger. */
  lemma BelowLargest(dx: nat, dy: nat, k: int, m: int)
    requires 0 < dx && dx / 2 - k * dy + m * dx < dy
    ensures dx / 2 - k * dy + m * dx <= Largest(dx, dy)
  {
    var _, _, p, q := Bezout(dx, dy);
    var g := Gcd(dx, dy);
    LargestIs(dx, dy, p, q);
    var c := m * p - k * q;
    Assoc(m, p, g);
    Assoc(k, q, g);
    Minus(m * p, k * q, g);
    var h := dx / 2 / g;
    Minus(h + c, c, g);
    OfQuotient(dx, dy, k, m, g, h, c, q);
  }

  /** `c` times the divisor away from the start, and below `q` times the divisor. */
  lemma OfQuotient(dx: nat, dy: nat, k: int, m: int, g: nat, h: int, c: int, q: int)
    requires 0 < g && h == dx / 2 / g && m * dx - k * dy == c * g && (h + c) * g - c * g == h * g && dy == q * g
    requires dx / 2 - k * dy + m * dx < dy
    ensures dx / 2 - k * dy + m * dx <= (q - 1) * g + dx / 2 % g
  {
    Divided(dx / 2, g);
    var e := dx / 2 - k * dy + m * dx;
    assert e == (h + c) * g + dx / 2 % g;
    if h + c > q - 1 {
      Minus(h + c, q, g);
      Product(h + c - q, g);
    } else {
      Minus(q - 1, h + c, g);
      Product(q - 1 - (h + c), g);
    }
  }

  lemma Divided(a: nat, g: nat)
    requires 0 < g
    ensures a == a / g * g + a % g && 0 <= a % g < g
  {}

  ghost predicate IsLargest(dx: nat, dy: nat, k: int, m: int)
    requires 0 < dx
  {
    Nearest(k, m, dx, dy) && dx / 2 - k * dy + m * dx == Largest(dx, dy) < dy
  }

  /** And that one is taken, in some round before the last. */
  lemma TakesLargest(dx: nat, dy: nat) returns (k: int, m: int)
    requires 0 < dy < dx
    ensures 0 <= k < dx && IsLargest(dx, dy, k, m)
  {
    var s, t, p, q := Bezout(dx, dy);
    var g := Gcd(dx, dy);
    LargestIs(dx, dy, p, q);
    var j := dx / 2 / g - q + 1;
    var c := Quotient(j * t, dx);
    k, m := j * t - c * dx, -j * s - c * dy;
    Shifted(dx, dy, j, s, t, c);
  }

  lemma Quotient(a: int, n: nat) returns (c: int)
    requires 0 < n
    ensures 0 <= a - c * n < n
  {
    c := a / n;
  }

  lemma Shifted(dx: int, dy: int, j: int, s: int, t: int, c: int)
    ensures (j * t - c * dx) * dy - (-j * s - c * dy) * dx == j * (s * dx + t * dy)
  {
    Minus(j * t, c * dx, dy);
    Minus(-j * s, c * dy, dx);
    Assoc(c, dx, dy);
    Assoc(c, dy, dx);
    Plus(j, s * dx, t * dy);
    Assoc(j, s, dx);
    Assoc(j, t, dy);
    Assoc(-1, j, s);
    Assoc(-1, j * s, dx);
  }

  /** Nothing that is computed for the line is larger than an int. */
  predicate FitsInt(dx: nat, dy: nat) {
    dx <= INT_MAX && dy <= INT_MAX && (dx > dy ==> dx + Largest(dx, dy) <= INT_MAX)
  }

  /** A round is determined by its number. */
  lemma OneNearest(k: int, m: int, n: int, big: int, small: int)
    requires 0 < big && Nearest(k, m, big, small) && Nearest(k, n, big, small)
    ensures m == n
  {
    Minus(m, n, big);
    Minus(n, m, big);
    if m > n {
      AtLeast(m - n, big);
    } else if m < n {
      AtLeast(n - m, big);
    }
  }

  /** In the round where the error term is largest, or in no round, the sum overflows. */
  lemma SumFits(x0: int, y0: int, x1: int, y1: int, k: int, m: int, x: int, y: int, err: int, k1: int, m1: int)
    requires Here(x0, y0, x1, y1, k, m, x, y, err) && k < Max(Abs(x1 - x0), Abs(y1 - y0))
    requires var dx, dy := Abs(x1 - x0), Abs(y1 - y0);
             && dx <= INT_MAX && dy <= INT_MAX
             && (!FitsInt(dx, dy) ==> IsLargest(dx, dy, k1, m1))
    ensures var dx, dy := Abs(x1 - x0), Abs(y1 - y0);
            && (FitsInt(dx, dy) && err < dy ==> err + dx <= INT_MAX)
            && (!FitsInt(dx, dy) && k == k1 ==> err < dy && err + dx > INT_MAX)
  {
    hide Nearest, Largest;
    var dx, dy := Abs(x1 - x0), Abs(y1 - y0);
    if dx > dy {
      if FitsInt(dx, dy) && err < dy {
        BelowLargest(dx, dy, k, m);
      } else if !FitsInt(dx, dy) && k == k1 {
        OneNearest(k, m, m1, dx, dy);
      }
    } else {
      InRange(k, m, dy, dx);
    }
  }

  /** A line one pixel high may be as wide as an int, and a line that is no wider than
      tall has no further limit; two pixels high and as wide as an int is too much. */
  lemma Limits(dx: nat, dy: nat)
    requires dx <= INT_MAX && dy <= INT_MAX
    ensures dx <= dy ==> FitsInt(dx, dy)
    ensures dx + dy - 1 <= INT_MAX ==> FitsInt(dx, dy)
    ensures !FitsInt(INT_MAX, 2)
  {
    assert Gcd(INT_MAX, 2) == Gcd(2, 1) == Gcd(1, 0) == 1;
    if dx > dy {
      var _, _, p, q := Bezout(dx, dy);
      LargestIs(dx, dy, p, q);
    }
  }

  /** The pixels set so far lead up to (`x`, `y`). */
  ghost predicate Drawn(ps: seq<Pixel>, x0: int, y0: int, x1: int, y1: int, x: int, y: int) {
    && (forall k :: 0 < k < |ps| ==> Neighbours(ps[k - 1], ps[k]))
    && (forall k :: 0 <= k < |ps| ==> Close(ps[k], x0, y0, x1, y1))
    && if ps == [] then x == x0 && y == y0 else ps[0] == Pixel(x0, y0) && Neighbours(ps[|ps| - 1], Pixel(x, y))
  }

  lemma DrawnMore(ps: seq<Pixel>, x0: int, y0: int, x1: int, y1: int, x: int, y: int)
    requires Drawn(ps, x0, y0, x1, y1, x, y) && Close(Pixel(x, y), x0, y0, x1, y1)
    ensures forall x', y' :: Neighbours(Pixel(x, y), Pixel(x', y')) ==> Drawn(ps + [Pixel(x, y)], x0, y0, x1, y1, x', y')
    ensures x == x1 && y == y1 && |ps| == Max(Abs(x1 - x0), Abs(y1 - y0)) ==> IsLine(ps + [Pixel(x, y)], x0, y0, x1, y1)
  {
    hide Close, Neighbours;
  }

  /** `DrawLine`, with the pixels it sets in order. It stops with `ok` false where the
      source would compute a value that is no int. */
  method Draw(x0: int, y0: int, x1: int, y1: int) returns (ps: seq<Pixel>, ok: bool)
    ensures ok <==> FitsInt(Abs(x1 - x0), Abs(y1 - y0))
    ensures ok ==> IsLine(ps, x0, y0, x1, y1)
  {
    hide Here, Drawn, Close, IsLine, Neighbours, Largest, IsLargest;
    var dx, sx := Abs(x1 - x0), if x0 < x1 then 1 else -1;
    var dy, sy := Abs(y1 - y0), if y0 < y1 then 1 else -1;
    ps := [];
    if dx > INT_MAX || dy > INT_MAX {
      return ps, false;
    }
    var err := if dx > dy then dx / 2 else -(dy / 2);
    var x, y := x0, y0;
    Start(x0, y0, x1, y1);
    NoneDrawn(x0, y0, x1, y1);
    ghost var k, m := 0, 0;
    ghost var k1, m1 := 0, 0;
    if !FitsInt(dx, dy) {
      Limits(dx, dy);
      k1, m1 := TakesLargest(dx, dy);
    }
    while true
      invariant 0 <= k <= Max(dx, dy) && |ps| == k && Here(x0, y0, x1, y1, k, m, x, y, err)
      invariant Drawn(ps, x0, y0, x1, y1, x, y)
      invariant !FitsInt(dx, dy) ==> k <= k1
      decreases Max(dx, dy) - k
    {
      AtEnd(x0, y0, x1, y1, k, m, x, y, err);
      DrawnMore(ps, x0, y0, x1, y1, x, y);
      ps := ps + [Pixel(x, y)];
      if x == x1 && y == y1 {
        break;
      }
      Step(x0, y0, x1, y1, k, m, x, y, err);
      SumFits(x0, y0, x1, y1, k, m, x, y, err, k1, m1);
      var e2 := err;
      ghost var more := if dx > dy then e2 < dy else e2 > -dx;
      if e2 < dy {
        if err + dx > INT_MAX {
          return ps, false;
        }
        err := err + dx;
        y := y + sy;
      }
      if e2 > -dx {
        assert -INT_MAX <= err - dy <= INT_MAX;
        err := err - dy;
        x := x + sx;
      }
      k, m := k + 1, if more then m + 1 else m;
    }
    ok := true;
  }

  lemma NoneDrawn(x0: int, y0: int, x1: int, y1: int)
    ensures Drawn([], x0, y0, x1, y1, x0, y0)
  {}

  lemma CloseHere(x0: int, y0: int, x1: int, y1: int, x: int, y: int, sx: int, sy: int, k: int, m: int)
    requires sx == (if x0 < x1 then 1 else -1) && sy == (if y0 < y1 then 1 else -1)
    requires var dx, dy := Abs(x1 - x0), Abs(y1 - y0);
             && (if dx > dy then x == x0 + k * sx && y == y0 + m * sy else y == y0 + k * sy && x == x0 + m * sx)
             && (Max(dx, dy) > 0 ==> Nearest(k, m, Max(dx, dy), if dx > dy then dy else dx))
    ensures Close(Pixel(x, y), x0, y0, x1, y1)
  {
    var dx, dy := Abs(x1 - x0), Abs(y1 - y0);
    if Max(dx, dy) > 0 {
      NearestClose(k, m, Max(dx, dy), if dx > dy then dy else dx);
      assert x1 - x0 == dx * sx && y1 - y0 == dy * sy;
      if dx > dy {
        Signs(m, dx, k, dy, sx, sy);
      } else {
        Signs(k, dx, m, dy, sx, sy);
      }
    }
  }

  /** Signs do not matter to the distance. */
  lemma Signs(a: int, dx: int, b: int, dy: int, sx: int, sy: int)
    requires (sx == 1 || sx == -1) && (sy == 1 || sy == -1)
    ensures Abs((a * sy) * (dx * sx) - (b * sx) * (dy * sy)) == Abs(a * dx - b * dy)
  {
    assert (a * sy) * (dx * sx) == (sx * sy) * (a * dx);
    assert (b * sx) * (dy * sy) == (sx * sy) * (b * dy);
  }
}

/** Exact-real plane geometry shared by the packer and the spawn reconciler. */
module Geometry {

  datatype Option<+T> = None | Some(value: T)

  datatype Pt = Pt(x: real, y: real)

  datatype Size = Size(w: real, h: real)

  datatype Rect = Rect(x0: real, y0: real, x1: real, y1: real)

  /** The axis-aligned footprint of size f centred on c. */
  function RectAt(c: Pt, f: Size): Rect {
    Rect(c.x - f.w / 2.0, c.y - f.h / 2.0, c.x + f.w / 2.0, c.y + f.h / 2.0)
  }

  /** At least g away from each other along one of the two axes. */
  predicate Apart(a: Rect, b: Rect, g: real) {
    a.x0 >= b.x1 + g || a.x1 <= b.x0 - g || a.y0 >= b.y1 + g || a.y1 <= b.y0 - g
  }

  /** r lies inside u, except for at most slack on each side. */
  predicate Within(r: Rect, u: Rect, slack: real) {
    r.x0 >= u.x0 - slack && r.y0 >= u.y0 - slack && r.x1 <= u.x1 + slack && r.y1 <= u.y1 + slack
  }

  function Abs(v: real): real { if v < 0.0 then -v else v }

  function Max(a: real, b: real): real { if a >= b then a else b }

  function Min(a: real, b: real): real { if a <= b then a else b }

  /** Rounding to the nearest integer, ties to the even one. */
  function RoundHalfEven(q: real): (n: int)
    ensures -0.5 <= n as real - q <= 0.5
    ensures Abs(n as real - q) == 0.5 ==> n % 2 == 0
  {
    var f := q.Floor;
    var rest := q - f as real;
    if rest < 0.5 || (rest == 0.5 && f % 2 == 0) then f else f + 1
  }

  lemma RoundHalfEvenOfInt(n: int)
    ensures RoundHalfEven(n as real) == n
  {
  }

  /** Rounding to 4 decimals, as the packer reports its centres. */
  function Round4(v: real): (r: real)
    ensures -0.00005 <= r - v <= 0.00005
  {
    RoundHalfEven(v * 10000.0) as real / 10000.0
  }

  function RoundPt(p: Pt): Pt { Pt(Round4(p.x), Round4(p.y)) }

  /** Moving both footprints by at most d on each axis costs at most 2d of separation. */
  lemma ApartAfterShift(a: Pt, a': Pt, f: Size, b: Pt, b': Pt, h: Size, g: real, da: real, db: real)
    requires Apart(RectAt(a, f), RectAt(b, h), g)
    requires -da <= a'.x - a.x <= da && -da <= a'.y - a.y <= da
    requires -db <= b'.x - b.x <= db && -db <= b'.y - b.y <= db
    ensures Apart(RectAt(a', f), RectAt(b', h), g - da - db)
  {
  }

  lemma ApartSymmetric(a: Rect, b: Rect, g: real)
    ensures Apart(a, b, g) == Apart(b, a, g)
  {
  }

  // ---------------------------------------------------------- multiplication

  function Times(a: real, b: real): real { a * b }

  lemma TimesPositive(a: real, b: real)
    requires a > 0.0 && b > 0.0
    ensures Times(a, b) > 0.0
  {
  }

  lemma TimesMonotone(a: real, b: real, c: real)
    requires a <= b && c >= 0.0
    ensures Times(a, c) <= Times(b, c)
  {
  }

  lemma TimesCommute(a: real, b: real)
    ensures Times(a, b) == Times(b, a)
  {
  }

  lemma TimesNegated(a: real, b: real)
    ensures Times(-a, -b) == Times(a, b)
  {
  }

  lemma TimesZero(b: real)
    ensures Times(0.0, b) == 0.0
  {
  }

  lemma TimesQuotient(a: real, m: real)
    requires m != 0.0
    ensures Times(a / m, m) == a
  {
  }
}

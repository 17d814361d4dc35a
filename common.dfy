/** Shared value types and the small pieces of Python and pygame behaviour that
    several parts of the arcade rely on: optional values, integer points,
    pygame rectangles with `collidepoint`, `int()` on a float, `str()` on an
    integer and `int()` on a string of digits. */
module Common {

  datatype Option<T> = None | Some(value: T) {
    /** Python's `d.get(key, default)` once the key's presence is an Option. */
    function GetOr(default: T): T {
      if Some? then value else default
    }
  }

  /** A 3x3 homography as nested rows (numpy's `tolist()`). */
  type Matrix = seq<seq<real>>

  /** An integer pixel position (camera or screen space). */
  datatype Point = Point(x: int, y: int)

  /** A pygame.Rect: left, top, width and height. */
  datatype Rect = Rect(x: int, y: int, w: int, h: int)

  /** pygame.Rect.collidepoint: the rectangle is half-open on both axes,
      so the right and bottom edges are outside. */
  predicate CollidePoint(r: Rect, p: Point)
    ensures CollidePoint(r, p) ==> r.w > 0 && r.h > 0
  {
    r.x <= p.x < r.x + r.w && r.y <= p.y < r.y + r.h
  }

  /** The top-left pixel of a non-empty rectangle is inside it, and so is
      the pixel at (right - 1, bottom - 1); the right and bottom edges are
      outside. */
  lemma CollidePointHalfOpen(r: Rect)
    requires r.w > 0 && r.h > 0
    ensures CollidePoint(r, Point(r.x, r.y)) && CollidePoint(r, Point(r.x + r.w - 1, r.y + r.h - 1))
    ensures !CollidePoint(r, Point(r.x + r.w, r.y)) && !CollidePoint(r, Point(r.x, r.y + r.h))
  {
  }

  /** No point lies in both rectangles. */
  ghost predicate Disjoint(a: Rect, b: Rect) {
    forall p :: !(CollidePoint(a, p) && CollidePoint(b, p))
  }

  /** Rectangles whose horizontal extents do not overlap share no point. */
  lemma SeparatedHorizontally(a: Rect, b: Rect)
    requires a.x + a.w <= b.x || b.x + b.w <= a.x
    ensures Disjoint(a, b)
  {
  }

  /** Rectangles whose vertical extents do not overlap share no point. */
  lemma SeparatedVertically(a: Rect, b: Rect)
    requires a.y + a.h <= b.y || b.y + b.h <= a.y
    ensures Disjoint(a, b)
  {
  }

  lemma {:induction false} SubsetCardinality<T>(a: set<T>, b: set<T>)
    requires a <= b
    ensures |a| <= |b|
  {
    if a != {} {
      var x :| x in a;
      SubsetCardinality(a - {x}, b - {x});
    }
  }

  /** Python's `int(r)` on a float: truncation toward zero. */
  function Trunc(r: real): (i: int)
    ensures r >= 0.0 ==> 0 <= i && i as real <= r < i as real + 1.0
    ensures r < 0.0 ==> i <= 0 && i as real - 1.0 < r <= i as real
  {
    if r >= 0.0 then r.Floor else -((-r).Floor)
  }

  predicate IsDigit(c: char) {
    '0' <= c <= '9'
  }

  predicate AllDigits(s: string) {
    forall i :: 0 <= i < |s| ==> IsDigit(s[i])
  }

  function DigitChar(d: nat): (c: char)
    requires d < 10
    ensures IsDigit(c) && c as int - '0' as int == d
  {
    (('0' as int) + d) as char
  }

  /** Python's `str(n)` for a non-negative integer: decimal digits, no
      leading zero. */
  function Decimal(n: nat): (s: string)
    ensures |s| >= 1 && AllDigits(s)
    ensures |s| == 1 <==> n < 10
  {
    if n < 10 then [DigitChar(n)] else Decimal(n / 10) + [DigitChar(n % 10)]
  }

  /** Python's `str(i)` for any integer: a minus sign exactly for a
      negative number, followed by at least one digit. */
  function IntString(i: int): (s: string)
    ensures |s| >= 1 && (s[0] == '-' <==> i < 0)
    ensures i < 0 ==> |s| >= 2 && AllDigits(s[1..])
    ensures i >= 0 ==> AllDigits(s)
  {
    if i < 0 then "-" + Decimal(-i) else Decimal(i)
  }

  /** A run of digits followed by a non-digit can be split in one way only. */
  lemma DigitsPrefix(da: string, db: string, t1: string, t2: string)
    requires AllDigits(da) && AllDigits(db)
    requires t1 != [] && t2 != [] && !IsDigit(t1[0]) && !IsDigit(t2[0])
    requires da + t1 == db + t2
    ensures da == db && t1 == t2
  {
    var k := if |da| < |db| then |da| else |db|;
    assert IsDigit((da + t1)[k]) <==> k < |da|;
    assert IsDigit((db + t2)[k]) <==> k < |db|;
    assert |da| == |db|;
    assert da == (da + t1)[..|da|] && db == (db + t2)[..|db|];
    assert t1 == (da + t1)[|da|..] && t2 == (db + t2)[|db|..];
  }

  /** A number printed by `str()` and followed by a non-digit can be read
      back: equal texts mean equal numbers and equal remainders. */
  lemma IntStringPrefix(a: int, b: int, t1: string, t2: string)
    requires t1 != [] && t2 != [] && !IsDigit(t1[0]) && !IsDigit(t2[0])
    requires IntString(a) + t1 == IntString(b) + t2
    ensures a == b && t1 == t2
  {
    var sa, sb := IntString(a), IntString(b);
    assert (sa + t1)[0] == sa[0] && (sb + t2)[0] == sb[0];
    if a < 0 {
      assert b < 0;
      assert (sa + t1)[1..] == Decimal(-a) + t1;
      assert (sb + t2)[1..] == Decimal(-b) + t2;
      DigitsPrefix(Decimal(-a), Decimal(-b), t1, t2);
      DecimalInjective(-a, -b);
    } else {
      assert b >= 0;
      DigitsPrefix(Decimal(a), Decimal(b), t1, t2);
      DecimalInjective(a, b);
    }
  }

  /** Python's `int(s)` for a string of ASCII digits (leading zeros allowed). */
  function DigitsValue(s: string): nat
    requires AllDigits(s)
  {
    if s == [] then 0
    else DigitsValue(s[..|s| - 1]) * 10 + (s[|s| - 1] as int - '0' as int)
  }

  /** Reading back what `str(n)` printed gives n again. */
  lemma {:induction false} DecimalRoundTrip(n: nat)
    ensures DigitsValue(Decimal(n)) == n
  {
    if n >= 10 {
      var s := Decimal(n);
      assert s[..|s| - 1] == Decimal(n / 10);
      DecimalRoundTrip(n / 10);
    }
  }

  /** Distinct numbers print differently. */
  lemma DecimalInjective(a: nat, b: nat)
    requires Decimal(a) == Decimal(b)
    ensures a == b
  {
    DecimalRoundTrip(a);
    DecimalRoundTrip(b);
  }
}

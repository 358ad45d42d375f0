// The curve that maps an edge's throughput to a drawn line width
// (src/jei/planner/lineWidthCurve.ts): sanitising a stored configuration, converting
// amounts per minute to the display unit, and evaluating the piecewise curve.
module LineWidthCurve {
  import opened Wrappers

  datatype Unit = PerMinute | PerSecond | PerHour | Belts
  datatype Scale = Linear | Log

  datatype Point = Point(x: real, y: real)

  /** A sanitised configuration. */
  datatype Config = Config(
    unit: Unit,
    xScale: Scale,
    yScale: Scale,
    minWidthPx: real,
    maxWidthPx: real,
    maxInput: real,
    points: seq<Point>)

  /**
   * A point as stored: `Missing` is a falsy entry (null, undefined); a coordinate is `None`
   * when it is not a finite number.
   */
  datatype RawPoint = Missing | RawPoint(x: Option<real>, y: Option<real>)

  /**
   * A configuration as read back from storage, before sanitising. Numbers are `None` when not
   * finite; `points` is `None` when not an array; the enumerations are whatever string was stored.
   */
  datatype RawConfig = RawConfig(
    unit: string,
    xScale: string,
    yScale: string,
    minWidthPx: Option<real>,
    maxWidthPx: Option<real>,
    maxInput: Option<real>,
    points: Option<seq<RawPoint>>)

  /**
   * The logarithmic scale's maths, which stays outside the model: `ratio(d, span)` stands for
   * `Math.log1p(d) / Math.log1p(span)` and `expand(n, span)` for `Math.expm1(n * Math.log1p(span))`.
   */
  datatype Logs = Logs(ratio: (real, real) -> real, expand: (real, real) -> real)

  function Max(a: real, b: real): real { if a >= b then a else b }
  function Min(a: real, b: real): real { if a <= b then a else b }

  /** `clamp(n, min, max)`: `Math.max(min, Math.min(max, n))`, so `min` wins when the bounds cross. */
  function Clamp(n: real, min: real, max: real): (r: real)
    ensures r >= min
    ensures min <= max ==> r <= max
    ensures min <= n <= max ==> r == n
    ensures n < min ==> r == min
    ensures min <= max && n > max ==> r == max
  {
    Max(min, Min(max, n))
  }

  // ---------------------------------------------------------------------------
  // Enumerations

  function UnitName(u: Unit): string {
    match u
    case PerMinute => "per_minute"
    case PerSecond => "per_second"
    case PerHour => "per_hour"
    case Belts => "belts"
  }

  function ScaleName(s: Scale): string {
    match s
    case Linear => "linear"
    case Log => "log"
  }

  /** A stored unit is kept when it names a unit, else it becomes `per_minute`. */
  function SanitizeUnit(s: string): (u: Unit)
    ensures (exists v :: UnitName(v) == s) ==> UnitName(u) == s
    ensures (forall v :: UnitName(v) != s) ==> u == PerMinute
  {
    if s == "per_second" then PerSecond
    else if s == "per_hour" then PerHour
    else if s == "belts" then Belts
    else PerMinute
  }

  /** A stored scale is kept when it names a scale, else it becomes `fallback`. */
  function SanitizeScale(s: string, fallback: Scale): (r: Scale)
    ensures (exists v :: ScaleName(v) == s) ==> ScaleName(r) == s
    ensures (forall v :: ScaleName(v) != s) ==> r == fallback
  {
    if s == "linear" then Linear else if s == "log" then Log else fallback
  }

  /** Writing a unit out and reading it back gives the same unit. */
  lemma UnitRoundTrip(u: Unit)
    ensures SanitizeUnit(UnitName(u)) == u
  {
  }

  lemma ScaleRoundTrip(s: Scale, fallback: Scale)
    ensures SanitizeScale(ScaleName(s), fallback) == s
  {
  }

  // ---------------------------------------------------------------------------
  // Axes

  /**
   * `normalizeAxis(value, min, max, scale)`: where `value` sits between `min` and `max`;
   * 0 for a non-finite value or an empty range.
   */
  function NormalizeAxis(value: Option<real>, min: real, max: real, scale: Scale, logs: Logs): (r: real)
    ensures value.None? || max <= min ==> r == 0.0
    ensures scale == Linear && max > min ==> 0.0 <= r <= 1.0
  {
    if value.None? || max <= min then 0.0
    else
      var v := Clamp(value.value, min, max);
      if scale == Linear then
        FractionBounds(v - min, max - min);
        (v - min) / (max - min)
      else
        var span := max - min;
        if span <= 0.0 then 0.0 else logs.ratio(v - min, span)
  }

  lemma FractionBounds(a: real, d: real)
    requires d > 0.0 && 0.0 <= a <= d
    ensures 0.0 <= a / d <= 1.0
  {
    assert a / d * d == a;
  }

  /**
   * `denormalizeAxis(norm, min, max, scale)`: the value at fraction `norm` of the range;
   * `min` for a non-finite fraction or an empty range.
   */
  function DenormalizeAxis(norm: Option<real>, min: real, max: real, scale: Scale, logs: Logs): (r: real)
    ensures norm.None? || max <= min ==> r == min
    ensures scale == Linear && max > min ==> min <= r <= max
  {
    if norm.None? || max <= min then min
    else
      var n := Clamp(norm.value, 0.0, 1.0);
      if scale == Linear then
        Lerp(min, max, n)
      else
        var span := max - min;
        if span <= 0.0 then min else min + logs.expand(n, span)
  }

  /** `min + n * (max - min)`: the point at fraction `n` of the way from `min` to `max`. */
  function Lerp(min: real, max: real, n: real): (r: real)
    requires min < max && 0.0 <= n <= 1.0
    ensures min <= r <= max
  {
    var d := max - min;
    assert 0.0 <= n * d <= d by {
      assert n * d <= 1.0 * d;
    }
    min + n * d
  }

  /** On a linear axis, denormalising a normalised value gives the value clamped to the range. */
  lemma LinearRoundTrip(v: real, min: real, max: real, logs: Logs)
    requires max > min
    ensures DenormalizeAxis(Some(NormalizeAxis(Some(v), min, max, Linear, logs)), min, max, Linear, logs)
         == Clamp(v, min, max)
  {
    var c := Clamp(v, min, max);
    var n := NormalizeAxis(Some(v), min, max, Linear, logs);
    assert n == (c - min) / (max - min);
    assert n * (max - min) == c - min;
  }

  // ---------------------------------------------------------------------------
  // Unit conversion

  /** `Math.max(0, finite ? amount : 0)` */
  function Amount(amountPerMinute: Option<real>): (r: real)
    ensures r >= 0.0
    ensures amountPerMinute.Some? && amountPerMinute.value >= 0.0 ==> r == amountPerMinute.value
  {
    if amountPerMinute.Some? then Max(0.0, amountPerMinute.value) else 0.0
  }

  /**
   * `convertAmountPerMinuteToUnitValue`: never negative, and scaling the result back by the
   * unit's factor gives the (non-negative, finite) amount per minute.
   */
  function ConvertAmount(amountPerMinute: Option<real>, beltSpeedItemsPerSecond: real, unit: Unit): (r: real)
    ensures r >= 0.0
    ensures unit == PerMinute ==> r == Amount(amountPerMinute)
    ensures unit == PerSecond ==> r * 60.0 == Amount(amountPerMinute)
    ensures unit == PerHour ==> r / 60.0 == Amount(amountPerMinute)
    ensures unit == Belts ==> r * 60.0 * Max(0.000000001, beltSpeedItemsPerSecond) == Amount(amountPerMinute)
  {
    var amount := Amount(amountPerMinute);
    match unit
    case PerSecond => amount / 60.0
    case PerHour => amount * 60.0
    case Belts => amount / 60.0 / Max(0.000000001, beltSpeedItemsPerSecond)
    case PerMinute => amount
  }

  // ---------------------------------------------------------------------------
  // Sanitising

  /** The stored points with finite coordinates, clamped into the box. */
  function Usable(raw: seq<RawPoint>, maxInput: real, minW: real, maxW: real): (r: seq<Point>)
    requires minW <= maxW && 0.0 <= maxInput
    ensures forall i :: 0 <= i < |r| ==> 0.0 <= r[i].x <= maxInput && minW <= r[i].y <= maxW
    ensures forall p :: p in r ==> exists q :: q in raw && Fits(q) && p == Clamped(q, maxInput, minW, maxW)
    ensures forall q :: q in raw && Fits(q) ==> Clamped(q, maxInput, minW, maxW) in r
  {
    if |raw| == 0 then []
    else
      var rest := Usable(raw[1..], maxInput, minW, maxW);
      assert raw == [raw[0]] + raw[1..];
      (if Fits(raw[0]) then [Clamped(raw[0], maxInput, minW, maxW)] else []) + rest
  }

  /** `p && isFiniteNumber(p.x) && isFiniteNumber(p.y)` */
  predicate Fits(p: RawPoint) {
    p.RawPoint? && p.x.Some? && p.y.Some?
  }

  function Clamped(p: RawPoint, maxInput: real, minW: real, maxW: real): Point
    requires Fits(p)
  {
    Point(Clamp(p.x.value, 0.0, maxInput), Clamp(p.y.value, minW, maxW))
  }

  predicate SortedByX(ps: seq<Point>) {
    forall i, j :: 0 <= i < j < |ps| ==> ps[i].x <= ps[j].x
  }

  /** Inserting a point after every point whose x is not larger. */
  function Insert(p: Point, ps: seq<Point>): (r: seq<Point>)
    ensures |r| == |ps| + 1
  {
    if |ps| == 0 then [p]
    else if ps[0].x <= p.x then [ps[0]] + Insert(p, ps[1..])
    else [p] + ps
  }

  lemma {:induction false} InsertMultiset(p: Point, ps: seq<Point>)
    ensures multiset(Insert(p, ps)) == multiset(ps) + multiset{p}
    decreases |ps|
  {
    if |ps| > 0 && ps[0].x <= p.x {
      InsertMultiset(p, ps[1..]);
      assert ps == [ps[0]] + ps[1..];
    }
  }

  /** Every point of the insertion lies at or right of the smaller of the new point and the first old one. */
  lemma {:induction false} InsertLower(p: Point, ps: seq<Point>, lo: real)
    requires lo <= p.x && forall i :: 0 <= i < |ps| ==> lo <= ps[i].x
    ensures forall i :: 0 <= i < |Insert(p, ps)| ==> lo <= Insert(p, ps)[i].x
    decreases |ps|
  {
    if |ps| > 0 && ps[0].x <= p.x {
      InsertLower(p, ps[1..], lo);
    }
  }

  lemma {:induction false} InsertSorted(p: Point, ps: seq<Point>)
    requires SortedByX(ps)
    ensures SortedByX(Insert(p, ps))
    decreases |ps|
  {
    if |ps| > 0 && ps[0].x <= p.x {
      var rest := Insert(p, ps[1..]);
      InsertSorted(p, ps[1..]);
      InsertLower(p, ps[1..], ps[0].x);
      var r := Insert(p, ps);
      assert r == [ps[0]] + rest;
      forall i, j | 0 <= i < j < |r|
        ensures r[i].x <= r[j].x
      {
        if i > 0 {
          assert r[i] == rest[i - 1];
        }
        assert r[j] == rest[j - 1];
      }
    }
  }

  /** `.sort((a, b) => a.x - b.x)`: a stable insertion sort by x (see `SortByXStable`). */
  function SortByX(ps: seq<Point>): (r: seq<Point>)
    ensures SortedByX(r)
    ensures multiset(r) == multiset(ps)
  {
    if |ps| == 0 then []
    else
      var sorted := SortByX(ps[..|ps| - 1]);
      InsertSorted(ps[|ps| - 1], sorted);
      InsertMultiset(ps[|ps| - 1], sorted);
      assert ps == ps[..|ps| - 1] + [ps[|ps| - 1]];
      Insert(ps[|ps| - 1], sorted)
  }

  /** The points at abscissa `x`, in list order. */
  function AtX(ps: seq<Point>, x: real): seq<Point> {
    if |ps| == 0 then [] else (if ps[0].x == x then [ps[0]] else []) + AtX(ps[1..], x)
  }

  lemma {:induction false} AtXConcat(a: seq<Point>, b: seq<Point>, x: real)
    ensures AtX(a + b, x) == AtX(a, x) + AtX(b, x)
    decreases |a|
  {
    if |a| == 0 {
      assert a + b == b;
    } else {
      var head := if a[0].x == x then [a[0]] else [];
      assert (a + b)[0] == a[0] && (a + b)[1..] == a[1..] + b;
      AtXConcat(a[1..], b, x);
      calc {
        AtX(a + b, x);
        head + AtX(a[1..] + b, x);
        head + (AtX(a[1..], x) + AtX(b, x));
        (head + AtX(a[1..], x)) + AtX(b, x);
        AtX(a, x) + AtX(b, x);
      }
    }
  }

  lemma {:induction false} AtXNone(ps: seq<Point>, x: real)
    requires forall i :: 0 <= i < |ps| ==> ps[i].x > x
    ensures AtX(ps, x) == []
    decreases |ps|
  {
    if |ps| > 0 {
      AtXNone(ps[1..], x);
    }
  }

  /** Inserting into a sorted list puts the new point after every old point with the same x. */
  lemma {:induction false} InsertAtX(p: Point, ps: seq<Point>, x: real)
    requires SortedByX(ps)
    ensures AtX(Insert(p, ps), x) == AtX(ps, x) + (if p.x == x then [p] else [])
    decreases |ps|
  {
    if |ps| > 0 {
      if ps[0].x <= p.x {
        InsertAtX(p, ps[1..], x);
        assert ([ps[0]] + Insert(p, ps[1..]))[1..] == Insert(p, ps[1..]);
      } else {
        assert ([p] + ps)[1..] == ps;
        if p.x == x {
          AtXNone(ps, x);
        }
      }
    }
  }

  /** The sort is stable: points with equal x keep their input order. */
  lemma {:induction false} SortByXStable(ps: seq<Point>, x: real)
    ensures AtX(SortByX(ps), x) == AtX(ps, x)
    decreases |ps|
  {
    if |ps| > 0 {
      var init := ps[..|ps| - 1];
      var last := ps[|ps| - 1];
      var sorted := SortByX(init);
      var tail := if last.x == x then [last] else [];
      SortByXStable(init, x);
      InsertAtX(last, sorted, x);
      AtXLast(init, last, x);
      calc {
        AtX(SortByX(ps), x);
        { assert SortByX(ps) == Insert(last, sorted); }
        AtX(Insert(last, sorted), x);
        AtX(sorted, x) + tail;
        AtX(init, x) + tail;
        { assert ps == init + [last]; }
        AtX(ps, x);
      }
    }
  }

  lemma AtXLast(init: seq<Point>, last: Point, x: real)
    ensures AtX(init + [last], x) == AtX(init, x) + (if last.x == x then [last] else [])
  {
    AtXConcat(init, [last], x);
    assert AtX([last], x) == (if last.x == x then [last] else []) + AtX([], x);
  }

  /** Interior point `i` sits at least `gap` right of point `i - 1`. */
  predicate SpacedTo(ps: seq<Point>, gap: real, n: int) {
    forall i :: 1 <= i < n && i < |ps| ==> ps[i].x >= ps[i - 1].x + gap
  }

  /**
   * The spacing loop from index `i`: each interior point is clamped to lie at least `gap` right
   * of its (already moved) left neighbour, and `gap` left of its right neighbour when there is room.
   */
  function Spread(ps: seq<Point>, i: nat, gap: real): (r: seq<Point>)
    requires 1 <= i <= |ps| && |ps| >= 2
    requires SpacedTo(ps, gap, i)
    ensures |r| == |ps| && r[0] == ps[0] && r[|r| - 1] == ps[|ps| - 1]
    ensures forall j :: 0 <= j < |r| ==> r[j].y == ps[j].y
    ensures SpacedTo(r, gap, |r| - 1)
    decreases |ps| - i
  {
    if i >= |ps| - 1 then ps
    else
      var left := ps[i - 1].x + gap;
      var right := ps[i + 1].x - gap;
      var moved := ps[i := Point(Clamp(ps[i].x, left, Max(left, right)), ps[i].y)];
      Spread(moved, i + 1, gap)
  }

  /** The point list before spacing: the usable points sorted, or the diagonal of the box when fewer than two. */
  function BasePoints(raw: Option<seq<RawPoint>>, maxInput: real, minW: real, maxW: real): (r: seq<Point>)
    requires minW <= maxW && 0.0 <= maxInput
    ensures |r| >= 2
    ensures forall i :: 0 <= i < |r| ==> minW <= r[i].y <= maxW
  {
    var mapped := SortByX(Usable(if raw.Some? then raw.value else [], maxInput, minW, maxW));
    if |mapped| >= 2 then
      forall i | 0 <= i < |mapped|
        ensures minW <= mapped[i].y <= maxW
      {
        assert mapped[i] in multiset(Usable(if raw.Some? then raw.value else [], maxInput, minW, maxW));
      }
      mapped
    else [Point(0.0, minW), Point(maxInput, maxW)]
  }

  /** `isFiniteNumber(input.minWidthPx) ? clamp(input.minWidthPx, 0.5, 200) : 2` */
  function MinWidth(raw: Option<real>): (r: real)
    ensures 0.5 <= r <= 200.0
    ensures raw.None? ==> r == 2.0
    ensures raw.Some? && 0.5 <= raw.value <= 200.0 ==> r == raw.value
  {
    if raw.Some? then Clamp(raw.value, 0.5, 200.0) else 2.0
  }

  /** `Math.max(minWidthPx + 0.1, isFiniteNumber(input.maxWidthPx) ? clamp(input.maxWidthPx, 1, 300) : 20)` */
  function MaxWidth(raw: Option<real>, minW: real): (r: real)
    requires 0.5 <= minW <= 200.0
    ensures r >= minW + 0.1 && 1.0 <= r <= 300.0
    ensures raw.None? ==> r == Max(minW + 0.1, 20.0)
    ensures raw.Some? && 1.0 <= raw.value <= 300.0 && minW + 0.1 <= raw.value ==> r == raw.value
  {
    Max(minW + 0.1, if raw.Some? then Clamp(raw.value, 1.0, 300.0) else 20.0)
  }

  /** `isFiniteNumber(input.maxInput) ? clamp(input.maxInput, 0.0001, 1_000_000) : 500` */
  function MaxInput(raw: Option<real>): (r: real)
    ensures 0.0001 <= r <= 1000000.0
    ensures raw.None? ==> r == 500.0
    ensures raw.Some? && 0.0001 <= raw.value <= 1000000.0 ==> r == raw.value
  {
    if raw.Some? then Clamp(raw.value, 0.0001, 1000000.0) else 500.0
  }

  /** `Math.max(maxInput * 0.002, 1e-6)` */
  function MinGap(maxInput: real): real {
    Max(maxInput * 0.002, 0.000001)
  }

  /**
   * A sanitised point list: at least two points, the first at x = 0 and the last at
   * `maxInput`, every y within the width bounds, and interior points spaced by the minimum gap.
   */
  predicate PointsOk(ps: seq<Point>, maxInput: real, minW: real, maxW: real) {
    && |ps| >= 2 && ps[0].x == 0.0 && ps[|ps| - 1].x == maxInput
    && (forall i :: 0 <= i < |ps| ==> minW <= ps[i].y <= maxW)
    && SpacedTo(ps, MinGap(maxInput), |ps| - 1)
  }

  function SanitizePoints(raw: Option<seq<RawPoint>>, maxInput: real, minW: real, maxW: real): (r: seq<Point>)
    requires minW <= maxW && 0.0 <= maxInput
    ensures PointsOk(r, maxInput, minW, maxW)
  {
    var base := BasePoints(raw, maxInput, minW, maxW);
    var ends := PinEnds(base, maxInput);
    var spread := Spread(ends, 1, MinGap(maxInput));
    ClampYs(spread, minW, maxW)
  }

  /** `points[0].x = 0; points[points.length - 1].x = maxInput` */
  function PinEnds(ps: seq<Point>, maxInput: real): (r: seq<Point>)
    requires |ps| >= 2
    ensures |r| == |ps| && r[0].x == 0.0 && r[|r| - 1].x == maxInput
    ensures forall i :: 0 <= i < |ps| ==> r[i].y == ps[i].y
    ensures forall i :: 0 < i < |ps| - 1 ==> r[i] == ps[i]
  {
    ps[0 := Point(0.0, ps[0].y)][|ps| - 1 := Point(maxInput, ps[|ps| - 1].y)]
  }

  /** `sanitizeLineWidthCurveConfig` */
  function Sanitize(raw: RawConfig): (c: Config)
    ensures 0.5 <= c.minWidthPx <= 200.0 && (raw.minWidthPx.None? ==> c.minWidthPx == 2.0)
    ensures c.maxWidthPx >= c.minWidthPx + 0.1 && 1.0 <= c.maxWidthPx <= 300.0
    ensures 0.0001 <= c.maxInput <= 1000000.0 && (raw.maxInput.None? ==> c.maxInput == 500.0)
    ensures PointsOk(c.points, c.maxInput, c.minWidthPx, c.maxWidthPx)
  {
    var minW := MinWidth(raw.minWidthPx);
    var maxW := MaxWidth(raw.maxWidthPx, minW);
    var maxInput := MaxInput(raw.maxInput);
    Config(SanitizeUnit(raw.unit), SanitizeScale(raw.xScale, Log), SanitizeScale(raw.yScale, Linear),
           minW, maxW, maxInput, SanitizePoints(raw.points, maxInput, minW, maxW))
  }

  /** `points.forEach((p) => { p.y = clamp(p.y, minWidthPx, maxWidthPx) })` */
  function ClampYs(ps: seq<Point>, minW: real, maxW: real): (r: seq<Point>)
    requires minW <= maxW
    ensures |r| == |ps|
    ensures forall i :: 0 <= i < |ps| ==> r[i] == Point(ps[i].x, Clamp(ps[i].y, minW, maxW))
  {
    if |ps| == 0 then [] else [Point(ps[0].x, Clamp(ps[0].y, minW, maxW))] + ClampYs(ps[1..], minW, maxW)
  }

  /** The scalar fields come out of a second sanitising unchanged. */
  lemma SanitizeScalarsIdempotent(raw: RawConfig)
    ensures var c := Sanitize(raw);
      c.unit == SanitizeUnit(raw.unit) && c.xScale == SanitizeScale(raw.xScale, Log)
      && c.yScale == SanitizeScale(raw.yScale, Linear)
    ensures var c := Sanitize(raw);
      var again := Sanitize(RawConfig(UnitName(c.unit), ScaleName(c.xScale), ScaleName(c.yScale),
                                      Some(c.minWidthPx), Some(c.maxWidthPx), Some(c.maxInput), None));
      again.unit == c.unit && again.xScale == c.xScale && again.yScale == c.yScale
      && again.minWidthPx == c.minWidthPx && again.maxWidthPx == c.maxWidthPx && again.maxInput == c.maxInput
  {
    var c := Sanitize(raw);
    UnitRoundTrip(c.unit);
    ScaleRoundTrip(c.xScale, Log);
    ScaleRoundTrip(c.yScale, Linear);
  }

  // ---------------------------------------------------------------------------
  // Evaluation

  /** The first segment `[a, b]` of neighbouring points containing x, else the first and last point. */
  function Segment(ps: seq<Point>, x: real, i: nat): (r: (Point, Point))
    requires |ps| >= 1
    ensures r.0 in ps && r.1 in ps
    decreases |ps| - i
  {
    if i + 1 >= |ps| then (ps[0], ps[|ps| - 1])
    else if x >= ps[i].x && x <= ps[i + 1].x then (ps[i], ps[i + 1])
    else Segment(ps, x, i + 1)
  }

  /** The width at x strictly inside the curve: interpolated on the found segment in normalised coordinates. */
  function Interpolate(c: Config, x: real, logs: Logs): (r: real)
    requires |c.points| >= 1
    ensures c.yScale == Linear && c.minWidthPx < c.maxWidthPx ==> c.minWidthPx <= r <= c.maxWidthPx
  {
    var (left, right) := Segment(c.points, x, 0);
    var tx := NormalizeAxis(Some(x), 0.0, c.maxInput, c.xScale, logs);
    var tx0 := NormalizeAxis(Some(left.x), 0.0, c.maxInput, c.xScale, logs);
    var tx1 := NormalizeAxis(Some(right.x), 0.0, c.maxInput, c.xScale, logs);
    var t := if tx1 > tx0 then Clamp((tx - tx0) / (tx1 - tx0), 0.0, 1.0) else 0.0;
    var ty0 := NormalizeAxis(Some(left.y), c.minWidthPx, c.maxWidthPx, c.yScale, logs);
    var ty1 := NormalizeAxis(Some(right.y), c.minWidthPx, c.maxWidthPx, c.yScale, logs);
    DenormalizeAxis(Some(ty0 + (ty1 - ty0) * t), c.minWidthPx, c.maxWidthPx, c.yScale, logs)
  }

  /**
   * What evaluating the sanitised configuration `c` at `inputValue` gives: on a linear width
   * scale a width within the bounds; at or below 0 the first point's width; at or above
   * `maxInput` the last point's.
   */
  predicate Evaluates(c: Config, inputValue: Option<real>, r: real) {
    && (c.yScale == Linear ==> c.minWidthPx <= r <= c.maxWidthPx)
    && |c.points| > 0
    && ((inputValue.None? || inputValue.value <= 0.0) ==> r == c.points[0].y)
    && ((inputValue.Some? && inputValue.value >= c.maxInput) ==> r == c.points[|c.points| - 1].y)
  }

  /** The body of `evaluateLineWidthCurve` after sanitising. */
  function EvaluateSanitized(c: Config, inputValue: Option<real>, logs: Logs): (r: real)
    requires PointsOk(c.points, c.maxInput, c.minWidthPx, c.maxWidthPx)
    requires c.minWidthPx < c.maxWidthPx && c.maxInput > 0.0
    ensures Evaluates(c, inputValue, r)
  {
    var x := Clamp(if inputValue.Some? then inputValue.value else 0.0, 0.0, c.maxInput);
    var ps := c.points;
    if x <= ps[0].x then ps[0].y
    else if x >= ps[|ps| - 1].x then ps[|ps| - 1].y
    else Interpolate(c, x, logs)
  }

  /**
   * `evaluateLineWidthCurve(inputValue, configRaw)`. The source's branch for an empty point
   * list is not reachable: the sanitised list has at least two points.
   */
  function Evaluate(inputValue: Option<real>, raw: RawConfig, logs: Logs): (r: real)
    ensures Evaluates(Sanitize(raw), inputValue, r)
  {
    EvaluateSanitized(Sanitize(raw), inputValue, logs)
  }
}

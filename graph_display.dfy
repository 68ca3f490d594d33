/** The graph view's pure rules: the plotted x-range per function, the uniform sampling grid
    with its null-marking rule, the conditions under which the intercept and extremum
    reference lines are drawn, and the axis tick label. */
module GraphDisplay {
  import opened Wrappers
  import opened Catalog

  /** A plotted interval, the number of grid steps, and whether a band around zero is
      forced undefined. */
  datatype Range = Range(min: real, max: real, points: nat, excludeZero: bool)

  /** One sample of the curve: `y == None` is the source's `null`. */
  datatype Sample = Sample(x: real, y: Option<real>)

  /** Values at or beyond this magnitude are not plotted. */
  const YLimit: real := 100.0

  /** Half-width of the band around zero excluded for the reciprocal function. */
  const ZeroBand: real := 0.05

  function GetRange(id: FunctionType): (r: Range)
    ensures r.min < r.max && r.points > 0
    ensures r.excludeZero <==> id == Reciprocal
  {
    match id
    case Logarithmic => Range(0.01, 10.0, 200, false)
    case Reciprocal => Range(-10.0, 10.0, 400, true)
    case SquareRoot => Range(0.0, 10.0, 200, false)
    case _ => Range(-10.0, 10.0, 200, false)
  }

  /** The range table, entry by entry. */
  lemma RangeTable(id: FunctionType)
    ensures GetRange(Logarithmic) == Range(0.01, 10.0, 200, false)
    ensures GetRange(Reciprocal) == Range(-10.0, 10.0, 400, true)
    ensures GetRange(SquareRoot) == Range(0.0, 10.0, 200, false)
    ensures id != Logarithmic && id != Reciprocal && id != SquareRoot ==>
      GetRange(id) == Range(-10.0, 10.0, 200, false)
  {
  }

  /** The i-th grid point: `min + step * i` with `step = (max - min) / points`. */
  function GridX(r: Range, i: nat): real
    requires r.points > 0
  {
    r.min + (r.max - r.min) / (r.points as real) * (i as real)
  }

  /** The grid starts at `min`, ends at `max`, and is strictly increasing. */
  lemma GridEnds(r: Range, i: nat, j: nat)
    requires r.points > 0
    ensures GridX(r, 0) == r.min
    ensures GridX(r, r.points) == r.max
    ensures r.min < r.max && i < j ==> GridX(r, i) < GridX(r, j)
  {
    var step := (r.max - r.min) / (r.points as real);
    assert step * (r.points as real) == r.max - r.min;
    if r.min < r.max && i < j {
      assert step > 0.0;
      assert step * (j as real) - step * (i as real) == step * ((j - i) as real);
    }
  }

  /** The value plotted at `x`: undefined in the excluded band around zero, and otherwise
      defined exactly when the evaluator is defined (not NaN, finite) and below the limit. */
  function SampleY(r: Range, f: real -> Option<real>, x: real): (y: Option<real>)
    ensures r.excludeZero && Abs(x) < ZeroBand ==> y.None?
    ensures !(r.excludeZero && Abs(x) < ZeroBand) ==>
      (y.Some? <==> f(x).Some? && Abs(f(x).value) < YLimit)
    ensures y.Some? ==> f(x) == y && Abs(y.value) < YLimit
  {
    if r.excludeZero && Abs(x) < ZeroBand then None
    else match f(x)
      case Some(v) => if Abs(v) < YLimit then Some(v) else None
      case None => None
  }

  /** The sampled data: `points + 1` samples, one per grid point. */
  function Data(r: Range, f: real -> Option<real>): (s: seq<Sample>)
    requires r.points > 0
    ensures |s| == r.points + 1
    ensures forall i :: 0 <= i < |s| ==> s[i].x == GridX(r, i) && s[i].y == SampleY(r, f, s[i].x)
  {
    seq(r.points + 1, i requires 0 <= i => Sample(GridX(r, i), SampleY(r, f, GridX(r, i))))
  }

  /** The data the view plots for a catalogue function. */
  function FunctionSamples(id: FunctionType, m: Libm): (s: seq<Sample>)
    ensures |s| == GetRange(id).points + 1
    ensures s[0].x == GetRange(id).min && s[|s| - 1].x == GetRange(id).max
  {
    GridEnds(GetRange(id), 0, 0);
    Data(GetRange(id), x => Evaluate(id, m, x))
  }

  /** For the reciprocal function a sample is null exactly when its x lies in the excluded
      band, since everywhere else |1/x| <= 20 is plotted; on the exact grid that is the one
      sample at x = 0. */
  lemma ReciprocalNullOnlyAtZero(m: Libm, i: nat)
    requires i < |FunctionSamples(Reciprocal, m)|
    ensures FunctionSamples(Reciprocal, m)[i].y.None? <==> Abs(FunctionSamples(Reciprocal, m)[i].x) < ZeroBand
    ensures FunctionSamples(Reciprocal, m)[i].y.None? <==> i == 200
    ensures i == 200 ==> FunctionSamples(Reciprocal, m)[i].x == 0.0
  {
    var s := FunctionSamples(Reciprocal, m);
    var x := s[i].x;
    assert x == -10.0 + (i as real) / 20.0;
    if i < 200 {
      assert x <= -ZeroBand;
      ReciprocalBounded(x);
    } else if i > 200 {
      assert x >= ZeroBand;
      ReciprocalBounded(x);
    }
  }

  lemma ReciprocalBounded(x: real)
    requires Abs(x) >= ZeroBand
    ensures Abs(1.0 / x) <= 20.0
  {
    if x > 0.0 {
      assert 1.0 / x <= 1.0 / ZeroBand;
    } else {
      assert 1.0 / (-x) <= 1.0 / ZeroBand;
      assert 1.0 / x == -(1.0 / (-x));
    }
  }

  /** For the quadratic function the two end samples, x = -10 and x = 10, have y = 100, which
      is not below the limit, so they are null; every inner sample is plotted. */
  lemma QuadraticEndpointsCut(m: Libm, i: nat)
    requires i < |FunctionSamples(Quadratic, m)|
    ensures FunctionSamples(Quadratic, m)[i].y.None? <==> i == 0 || i == 200
  {
    var s := FunctionSamples(Quadratic, m);
    var x := s[i].x;
    assert x == -10.0 + (i as real) / 10.0;
    if 0 < i < 200 {
      assert -10.0 < x < 10.0;
      assert x * x < 100.0 by {
        if x >= 0.0 { assert x * x <= 10.0 * x; } else { assert x * x <= -10.0 * x; }
      }
    }
  }

  /** The grids of the square root and logarithm lie inside their domains, so any null
      sample comes from the magnitude limit, never from NaN. */
  lemma GuardedGridsInDomain(m: Libm, i: nat)
    ensures i <= 200 ==> InDomain(SquareRoot, GridX(GetRange(SquareRoot), i))
    ensures i <= 200 ==> InDomain(Logarithmic, GridX(GetRange(Logarithmic), i))
  {
  }

  /** Whether, and where, the x-intercept reference line is drawn: not when the descriptor's
      x-intercept text is exactly "None", never for the reciprocal and greatest-integer
      functions; at x = 1 for the logarithm and x = 0 otherwise. */
  function XInterceptLine(fd: FunctionData, showIntercepts: bool): Option<real>
  {
    if showIntercepts && fd.xIntercepts != "None" && fd.id != Reciprocal && fd.id != GreatestInteger
    then Some(if fd.id == Logarithmic then 1.0 else 0.0)
    else None
  }

  /** Whether, and where, the y-intercept reference line is drawn: not when the text is
      exactly "None", never for the reciprocal and the logarithm; at y = 1 for the exponential
      and y = 0 otherwise. */
  function YInterceptLine(fd: FunctionData, showIntercepts: bool): Option<real>
  {
    if showIntercepts && fd.yIntercept != "None" && fd.id != Reciprocal && fd.id != Logarithmic
    then Some(if fd.id == Exponential then 1.0 else 0.0)
    else None
  }

  /** Whether, and where, the extremum reference line is drawn: only with extrema shown, a
      non-empty extremum text (the source tests its truthiness), and for the quadratic and absolute-value functions; at x = 0. */
  function ExtremumLine(fd: FunctionData, showExtrema: bool): Option<real>
  {
    if showExtrema && fd.extrema.Some? && fd.extrema.value != "" && fd.id != GreatestInteger
       && (fd.id == Quadratic || fd.id == AbsoluteValue)
    then Some(0.0)
    else None
  }

  /** Over the catalogue, with intercepts shown: which functions get an x-intercept line and
      where. The constant function gets one, because its text is "None (unless c = 0)". */
  lemma XInterceptLineCatalog(id: FunctionType)
    ensures XInterceptLine(GetFunction(id), true).Some? <==>
      id != Exponential && id != Reciprocal && id != GreatestInteger
    ensures XInterceptLine(GetFunction(id), true).Some? ==>
      XInterceptLine(GetFunction(id), true).value == if id == Logarithmic then 1.0 else 0.0
    ensures XInterceptLine(GetFunction(id), false).None?
  {
    GetFunctionAt(id);
  }

  /** Over the catalogue, with intercepts shown: every function but the reciprocal and the
      logarithm gets a y-intercept line, at 1 for the exponential and 0 otherwise. */
  lemma YInterceptLineCatalog(id: FunctionType)
    ensures YInterceptLine(GetFunction(id), true).Some? <==> id != Reciprocal && id != Logarithmic
    ensures YInterceptLine(GetFunction(id), true).Some? ==>
      YInterceptLine(GetFunction(id), true).value == if id == Exponential then 1.0 else 0.0
    ensures YInterceptLine(GetFunction(id), false).None?
  {
    GetFunctionAt(id);
  }

  /** Over the catalogue, with extrema shown: only the quadratic and absolute-value functions
      get the extremum line. The cubic has an extremum text but is not drawn. */
  lemma ExtremumLineCatalog(id: FunctionType)
    ensures ExtremumLine(GetFunction(id), true).Some? <==> id == Quadratic || id == AbsoluteValue
    ensures ExtremumLine(GetFunction(id), true).Some? ==> ExtremumLine(GetFunction(id), true).value == 0.0
    ensures ExtremumLine(GetFunction(id), false).None?
  {
    ExtremaEntries(id);
  }

  /** As written, the constant function (f(x) = 3) gets an x-intercept line at x = 0, where
      its value is 3, and a y-intercept line at y = 0, while its value at 0 is 3. */
  lemma ConstantInterceptLinesOffCurve(m: Libm)
    ensures XInterceptLine(GetFunction(Constant), true) == Some(0.0)
    ensures Evaluate(Constant, m, 0.0) == Some(3.0)
    ensures YInterceptLine(GetFunction(Constant), true) == Some(0.0)
  {
    GetFunctionAt(Constant);
  }

  predicate StartsWith(s: string, prefix: string)
  {
    |prefix| <= |s| && s[..|prefix|] == prefix
  }

  /** The x-intercept line with the intended gate: a descriptor whose text starts with
      "None" declares no x-intercept. */
  function XInterceptLineCorrected(fd: FunctionData, showIntercepts: bool): Option<real>
  {
    if showIntercepts && !StartsWith(fd.xIntercepts, "None")
       && fd.id != Reciprocal && fd.id != GreatestInteger
    then Some(if fd.id == Logarithmic then 1.0 else 0.0)
    else None
  }

  /** The y-intercept line placed at the function's value at 0, when that is defined. */
  function YInterceptLineCorrected(fd: FunctionData, m: Libm, showIntercepts: bool): Option<real>
  {
    if showIntercepts && !StartsWith(fd.yIntercept, "None") && fd.id != Reciprocal
       && fd.id != Logarithmic && Evaluate(fd.id, m, 0.0).Some?
    then Evaluate(fd.id, m, 0.0)
    else None
  }

  /** Which intercept texts of the table start with "None". */
  lemma InterceptTextsSayingNone()
    ensures StartsWith(ConstantEntry.xIntercepts, "None") && !StartsWith(ConstantEntry.yIntercept, "None")
    ensures !StartsWith(IdentityEntry.xIntercepts, "None") && !StartsWith(IdentityEntry.yIntercept, "None")
    ensures !StartsWith(QuadraticEntry.xIntercepts, "None") && !StartsWith(QuadraticEntry.yIntercept, "None")
    ensures !StartsWith(CubicEntry.xIntercepts, "None") && !StartsWith(CubicEntry.yIntercept, "None")
    ensures !StartsWith(SquareRootEntry.xIntercepts, "None") && !StartsWith(SquareRootEntry.yIntercept, "None")
    ensures StartsWith(ReciprocalEntry.xIntercepts, "None") && StartsWith(ReciprocalEntry.yIntercept, "None")
    ensures !StartsWith(AbsoluteValueEntry.xIntercepts, "None") && !StartsWith(AbsoluteValueEntry.yIntercept, "None")
    ensures StartsWith(ExponentialEntry.xIntercepts, "None") && !StartsWith(ExponentialEntry.yIntercept, "None")
    ensures !StartsWith(LogarithmicEntry.xIntercepts, "None") && StartsWith(LogarithmicEntry.yIntercept, "None")
    ensures !StartsWith(GreatestIntegerEntry.xIntercepts, "None") && !StartsWith(GreatestIntegerEntry.yIntercept, "None")
  {
    assert ConstantEntry.xIntercepts[..4] == "None";
    assert ReciprocalEntry.yIntercept[..4] == "None";
    assert LogarithmicEntry.yIntercept[..4] == "None";
    assert ConstantEntry.yIntercept[0] == '(';
  }

  /** Which catalogue functions' intercept texts start with "None". */
  lemma InterceptTextsSayingNoneById(id: FunctionType)
    ensures StartsWith(GetFunction(id).xIntercepts, "None") <==>
      id == Constant || id == Reciprocal || id == Exponential
    ensures StartsWith(GetFunction(id).yIntercept, "None") <==> id == Reciprocal || id == Logarithmic
  {
    GetFunctionAt(id);
    InterceptTextsSayingNone();
  }

  /** With the corrected gate every drawn x-intercept line lies where the function is 0, and
      only the constant function's line changes: it is no longer drawn. */
  lemma CorrectedXInterceptLineOnCurve(id: FunctionType, m: Libm)
    requires m.log(1.0) == 0.0 && m.sqrt(0.0) == 0.0
    ensures XInterceptLineCorrected(GetFunction(id), true).Some? ==>
      Evaluate(id, m, XInterceptLineCorrected(GetFunction(id), true).value) == Some(0.0)
    ensures id != Constant ==>
      XInterceptLineCorrected(GetFunction(id), true) == XInterceptLine(GetFunction(id), true)
    ensures XInterceptLineCorrected(GetFunction(Constant), true).None?
  {
    GetFunctionAt(id);
    InterceptTextsSayingNoneById(id);
    InterceptTextsSayingNoneById(Constant);
    XInterceptLineCatalog(id);
  }

  /** With the corrected gate every drawn y-intercept line lies at the function's value at 0;
      only the constant function's line moves, from 0 to 3. */
  lemma CorrectedYInterceptLineOnCurve(id: FunctionType, m: Libm)
    requires m.exp(0.0) == 1.0 && m.sqrt(0.0) == 0.0
    ensures YInterceptLineCorrected(GetFunction(id), m, true).Some? ==>
      Evaluate(id, m, 0.0) == YInterceptLineCorrected(GetFunction(id), m, true)
    ensures id != Constant ==>
      YInterceptLineCorrected(GetFunction(id), m, true) == YInterceptLine(GetFunction(id), true)
    ensures YInterceptLineCorrected(GetFunction(Constant), m, true) == Some(3.0)
  {
    GetFunctionAt(id);
    InterceptTextsSayingNoneById(id);
    InterceptTextsSayingNoneById(Constant);
    YInterceptLineCatalog(id);
    Floor0();
  }

  lemma Floor0()
    ensures (0.0).Floor == 0
  {
  }

  /** The tick label: values within 0.001 of zero print as "0"; others print through the
      number formatter `show`. */
  function TickLabel(value: real, show: real -> string): (text: string)
    ensures Abs(value) < 0.001 ==> text == "0"
    ensures Abs(value) >= 0.001 ==> text == show(value)
  {
    if Abs(value) < 0.001 then "0" else show(value)
  }
}

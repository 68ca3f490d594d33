/** The small graph inside the end-behaviour tutorial: the function is sampled on the grid
    x = -10, -9.8, ..., 10, undefined samples are dropped, the points are mapped to pixels,
    and an SVG path is built that starts a new segment after every point that falls
    outside the drawing box. */
module TutorialGraph {
  import opened Wrappers

  /** The drawing area: a 600 x 400 picture less its margins. */
  const Width: real := 600.0
  const Height: real := 400.0
  const MarginTop: real := 20.0
  const MarginRight: real := 20.0
  const MarginBottom: real := 30.0
  const MarginLeft: real := 40.0
  const InnerWidth: real := Width - MarginLeft - MarginRight
  const InnerHeight: real := Height - MarginTop - MarginBottom

  /** A defined sample of the function. */
  datatype Point = Point(x: real, y: real)

  /** Grid spacing and the number of grid points from -10 to 10. */
  const Step: real := 0.2
  const GridSize: nat := 101

  /** Pixel column of x: [-10, 10] is stretched onto [0, InnerWidth]. */
  function XScale(x: real): real
  {
    (x + 10.0) * (InnerWidth / 20.0)
  }

  /** Pixel row of y: [-10, 10] is stretched onto [InnerHeight, 0], upwards on screen. */
  function YScale(y: real): real
  {
    InnerHeight - (y + 10.0) * (InnerHeight / 20.0)
  }

  /** The box a pixel must fall in to be drawn: the full width, and 50 pixels of slack
      above and below the drawing area. */
  predicate InBox(px: real, py: real)
  {
    0.0 <= px <= InnerWidth && -50.0 <= py <= InnerHeight + 50.0
  }

  predicate Visible(p: Point)
  {
    InBox(XScale(p.x), YScale(p.y))
  }

  /** In function coordinates the box is x in [-10, 10] and y in [-90/7, 90/7]. */
  lemma VisibleRegion(p: Point)
    ensures Visible(p) <==> -10.0 <= p.x <= 10.0 && -90.0 / 7.0 <= p.y <= 90.0 / 7.0
  {
    assert InnerWidth == 540.0 && InnerHeight == 350.0;
    assert XScale(p.x) == (p.x + 10.0) * 27.0;
    assert YScale(p.y) == 350.0 - (p.y + 10.0) * 17.5;
  }

  /** The k-th grid point. */
  function GridPoint(k: nat): real
  {
    -10.0 + (k as real) * Step
  }

  /** The defined samples among the first `n` grid points, in grid order. */
  function DefinedSamples(f: real -> Option<real>, n: nat): seq<Point>
  {
    if n == 0 then []
    else
      var x := GridPoint(n - 1);
      DefinedSamples(f, n - 1) + (if f(x).Some? then [Point(x, f(x).value)] else [])
  }

  /** The sampler: walks x from -10 up to 10 in steps of 0.2 and keeps the points where the
      function is defined and finite. */
  method SamplePoints(f: real -> Option<real>) returns (points: seq<Point>)
    ensures points == DefinedSamples(f, GridSize)
  {
    points := [];
    var x := -10.0;
    ghost var k: nat := 0;
    while x <= 10.0
      invariant k <= GridSize && x == GridPoint(k)
      invariant points == DefinedSamples(f, k)
      decreases GridSize - k
    {
      var y := f(x);
      if y.Some? {
        points := points + [Point(x, y.value)];
      }
      x := x + Step;
      k := k + 1;
    }
  }

  /** Every kept sample is a defined value of the function on the grid, x increases along
      the list, and every grid point where the function is defined is kept. */
  lemma {:induction false} DefinedSamplesSound(f: real -> Option<real>, n: nat)
    ensures forall i :: 0 <= i < |DefinedSamples(f, n)| ==>
      f(DefinedSamples(f, n)[i].x) == Some(DefinedSamples(f, n)[i].y)
      && -10.0 <= DefinedSamples(f, n)[i].x <= GridPoint(n) - Step
    ensures forall i, j :: 0 <= i < j < |DefinedSamples(f, n)| ==>
      DefinedSamples(f, n)[i].x < DefinedSamples(f, n)[j].x
    ensures forall k :: 0 <= k < n && f(GridPoint(k)).Some? ==>
      Point(GridPoint(k), f(GridPoint(k)).value) in DefinedSamples(f, n)
  {
    if n > 0 {
      DefinedSamplesSound(f, n - 1);
      var s' := DefinedSamples(f, n - 1);
      var x := GridPoint(n - 1);
      var s := DefinedSamples(f, n);
      assert s == s' + (if f(x).Some? then [Point(x, f(x).value)] else []);
      forall k | 0 <= k < n && f(GridPoint(k)).Some?
        ensures Point(GridPoint(k), f(GridPoint(k)).value) in s
      {
        if k < n - 1 {
          assert Point(GridPoint(k), f(GridPoint(k)).value) in s';
        } else {
          assert s[|s| - 1] == Point(x, f(x).value);
        }
      }
    }
  }

  /** Sampling more grid points only extends the list of kept samples. */
  lemma {:induction false} DefinedSamplesPrefix(f: real -> Option<real>, m: nat, n: nat)
    requires m <= n
    ensures |DefinedSamples(f, m)| <= |DefinedSamples(f, n)|
    ensures DefinedSamples(f, m) == DefinedSamples(f, n)[..|DefinedSamples(f, m)|]
  {
    if m < n {
      DefinedSamplesPrefix(f, m, n - 1);
      var s, s' := DefinedSamples(f, n), DefinedSamples(f, n - 1);
      assert s'[..|s'|] == s';
      assert s[..|s'|] == s';
    }
  }

  /** An undefined grid point between two defined ones is dropped, so the two defined
      samples become neighbours in the list. */
  lemma UndefinedSampleDropped(f: real -> Option<real>, k: nat)
    requires 0 < k && k + 1 < GridSize
    requires f(GridPoint(k)).None? && f(GridPoint(k - 1)).Some? && f(GridPoint(k + 1)).Some?
    ensures var s := DefinedSamples(f, GridSize);
      var j := |DefinedSamples(f, k + 1)|;
      0 < j < |s| && s[j - 1] == Point(GridPoint(k - 1), f(GridPoint(k - 1)).value)
      && s[j] == Point(GridPoint(k + 1), f(GridPoint(k + 1)).value)
  {
    var a := Point(GridPoint(k - 1), f(GridPoint(k - 1)).value);
    var b := Point(GridPoint(k + 1), f(GridPoint(k + 1)).value);
    var s0 := DefinedSamples(f, k);
    assert s0 == DefinedSamples(f, k - 1) + [a];
    var s1 := DefinedSamples(f, k + 1);
    assert s1 == s0 + [];
    var s2 := DefinedSamples(f, k + 2);
    assert s2 == s1 + [b];
    var j := |s1|;
    assert s2[j] == b && s2[j - 1] == a;
    DefinedSamplesPrefix(f, k + 2, GridSize);
  }

  /** A point in the box right after another point in the box is joined to it by a line. */
  lemma PieceAfterVisible(ps: seq<Point>, j: nat, fmt: real -> string)
    requires 0 < j < |ps| && Visible(ps[j - 1]) && Visible(ps[j])
    ensures Piece(ps, j, fmt) == " L " + fmt(XScale(ps[j].x)) + " " + fmt(YScale(ps[j].y))
  {
  }

  /** An undefined sample between two drawn ones does not break the curve: it is dropped
      before the path is built, so the later point directly follows the earlier one and is
      joined to it by a line. */
  lemma UndefinedSampleKeepsLine(f: real -> Option<real>, k: nat, fmt: real -> string)
    requires 0 < k && k + 1 < GridSize
    requires f(GridPoint(k)).None? && f(GridPoint(k - 1)).Some? && f(GridPoint(k + 1)).Some?
    requires Visible(Point(GridPoint(k - 1), f(GridPoint(k - 1)).value))
    requires Visible(Point(GridPoint(k + 1), f(GridPoint(k + 1)).value))
    ensures var s := DefinedSamples(f, GridSize);
      var j := |DefinedSamples(f, k + 1)|;
      var b := Point(GridPoint(k + 1), f(GridPoint(k + 1)).value);
      0 < j < |s| && s[j] == b
      && Piece(s, j, fmt) == " L " + fmt(XScale(b.x)) + " " + fmt(YScale(b.y))
  {
    UndefinedSampleDropped(f, k);
    PieceAfterVisible(DefinedSamples(f, GridSize), |DefinedSamples(f, k + 1)|, fmt);
  }

  /** The sampler's points lie in [-10, 10] horizontally, so whether one is drawn depends
      on its y alone. */
  lemma SampledPointsInView(f: real -> Option<real>)
    ensures var s := DefinedSamples(f, GridSize);
      forall i :: 0 <= i < |s| ==>
        -10.0 <= s[i].x <= 10.0 && (Visible(s[i]) <==> -90.0 / 7.0 <= s[i].y <= 90.0 / 7.0)
  {
    DefinedSamplesSound(f, GridSize);
    var s := DefinedSamples(f, GridSize);
    assert GridPoint(GridSize) - Step == 10.0;
    forall i | 0 <= i < |s|
      ensures -10.0 <= s[i].x <= 10.0 && (Visible(s[i]) <==> -90.0 / 7.0 <= s[i].y <= 90.0 / 7.0)
    {
      VisibleRegion(s[i]);
    }
  }

  /** What `generatePath` appends for the i-th point: nothing when it is outside the box, a
      move when it is the first point or follows a point outside the box, a line otherwise. */
  function Piece(ps: seq<Point>, i: nat, fmt: real -> string): string
    requires i < |ps|
  {
    var x, y := XScale(ps[i].x), YScale(ps[i].y);
    if !InBox(x, y) then ""
    else if i == 0 || !Visible(ps[i - 1]) then "M " + fmt(x) + " " + fmt(y)
    else " L " + fmt(x) + " " + fmt(y)
  }

  /** The path after the first `n` points. */
  function PathUpTo(ps: seq<Point>, n: nat, fmt: real -> string): string
    requires n <= |ps|
  {
    if n == 0 then "" else PathUpTo(ps, n - 1, fmt) + Piece(ps, n - 1, fmt)
  }

  /** `generatePath`; `fmt` is the number-to-text conversion of the template literal. */
  method GeneratePath(points: seq<Point>, fmt: real -> string) returns (path: string)
    ensures path == PathUpTo(points, |points|, fmt)
  {
    path := "";
    var firstPoint := true;
    var i := 0;
    while i < |points|
      invariant 0 <= i <= |points|
      invariant path == PathUpTo(points, i, fmt)
      invariant firstPoint <==> i == 0 || !Visible(points[i - 1])
    {
      var point := points[i];
      var x := XScale(point.x);
      var y := YScale(point.y);
      assert PathUpTo(points, i + 1, fmt) == path + Piece(points, i, fmt);
      if 0.0 <= x <= InnerWidth && -50.0 <= y <= InnerHeight + 50.0 {
        assert Visible(point);
        if firstPoint {
          path := path + ("M " + fmt(x) + " " + fmt(y));
          firstPoint := false;
        } else {
          path := path + (" L " + fmt(x) + " " + fmt(y));
        }
      } else {
        assert Piece(points, i, fmt) == "" && path + "" == path;
        firstPoint := true;
      }
      i := i + 1;
    }
  }

  /** The path is empty exactly when no point lies in the box. */
  lemma {:induction false} PathEmptyIff(ps: seq<Point>, n: nat, fmt: real -> string)
    requires n <= |ps|
    ensures PathUpTo(ps, n, fmt) == [] <==> forall k :: 0 <= k < n ==> !Visible(ps[k])
  {
    if n > 0 {
      PathEmptyIff(ps, n - 1, fmt);
      assert Visible(ps[n - 1]) ==> |Piece(ps, n - 1, fmt)| >= 2;
    }
  }

  /** A non-empty path always opens with a move, never with a line. */
  lemma {:induction false} PathStartsWithMove(ps: seq<Point>, n: nat, fmt: real -> string)
    requires n <= |ps|
    ensures var path := PathUpTo(ps, n, fmt); path != [] ==> |path| >= 2 && path[..2] == "M "
  {
    if n > 0 {
      PathStartsWithMove(ps, n - 1, fmt);
      var before := PathUpTo(ps, n - 1, fmt);
      var piece := Piece(ps, n - 1, fmt);
      if before == [] {
        PathEmptyIff(ps, n - 1, fmt);
        assert PathUpTo(ps, n, fmt) == piece;
        if n - 1 > 0 {
          assert !Visible(ps[n - 2]);
        }
      } else {
        assert PathUpTo(ps, n, fmt)[..2] == before[..2];
      }
    }
  }

  /** Points outside the box split the path, and the next segment's move is appended with
      no separating space. */
  lemma SegmentsJoinWithoutSpace(a: Point, b: Point, c: Point, fmt: real -> string)
    requires Visible(a) && !Visible(b) && Visible(c)
    ensures PathUpTo([a, b, c], 3, fmt) ==
      "M " + fmt(XScale(a.x)) + " " + fmt(YScale(a.y))
      + "M " + fmt(XScale(c.x)) + " " + fmt(YScale(c.y))
  {
    var ps := [a, b, c];
    assert PathUpTo(ps, 1, fmt) == "" + Piece(ps, 0, fmt);
    assert Piece(ps, 1, fmt) == "";
  }

  /** Consecutive points in the box are joined by a line. */
  lemma ConsecutivePointsJoinByLine(a: Point, b: Point, fmt: real -> string)
    requires Visible(a) && Visible(b)
    ensures PathUpTo([a, b], 2, fmt) ==
      "M " + fmt(XScale(a.x)) + " " + fmt(YScale(a.y))
      + " L " + fmt(XScale(b.x)) + " " + fmt(YScale(b.y))
  {
    var ps := [a, b];
    assert PathUpTo(ps, 1, fmt) == "" + Piece(ps, 0, fmt);
  }
}

/** Lattice sampling of an RGBA pixel buffer (`Effect.init` in script.js).

    The canvas holds `width * height` pixels, four bytes each (red, green,
    blue, alpha), row after row. The effect visits the points of a lattice of
    spacing `gap`, row by row, and keeps a seed point for each visited pixel
    whose alpha byte is positive. This module states that traversal as
    functions on values; the method that runs it in place is `Effect.Init`. */
module Sampling {
  import opened Colour

  /** A lattice coordinate of the canvas. */
  datatype Point = Point(x: nat, y: nat)

  /** What a particle takes from the image: its grid origin and its colour. */
  datatype SeedPoint = SeedPoint(originX: nat, originY: nat, colour: Rgb)

  /** The spacing the effect uses (script.js:39). */
  const DefaultGap: nat := 5

  /** Offset of the red byte of pixel (x, y) in the buffer. */
  function PixelIndex(x: nat, y: nat, width: nat): nat {
    (y * width + x) * 4
  }

  predicate InCanvas(p: Point, width: nat, height: nat) {
    p.x < width && p.y < height
  }

  predicate OnGrid(p: Point, gap: nat)
    requires gap >= 1
  {
    p.x % gap == 0 && p.y % gap == 0
  }

  /** Row-major order: by row first, then by column. */
  predicate Before(p: Point, q: Point) {
    p.y < q.y || (p.y == q.y && p.x < q.x)
  }

  predicate StrictlyRowMajor(ps: seq<Point>) {
    forall i, j :: 0 <= i < j < |ps| ==> Before(ps[i], ps[j])
  }

  /** Number of lattice steps of size `gap` that fit in `len`, rounded up. */
  function Ceil(len: nat, gap: nat): nat
    requires gap >= 1
  {
    (len + gap - 1) / gap
  }

  // ---------------------------------------------------------------------------
  // The lattice
  // ---------------------------------------------------------------------------

  /** The inner loop from column `x` on: (x, y), (x + gap, y), ... while the
      column is below `width`. */
  function RowPoints(x: nat, y: nat, width: nat, gap: nat): seq<Point>
    requires gap >= 1
    decreases width - x
  {
    if x < width then [Point(x, y)] + RowPoints(x + gap, y, width, gap) else []
  }

  /** The outer loop from row `y` on: one full row for y, y + gap, ... while
      the row is below `height`. */
  function RowsFrom(y: nat, width: nat, height: nat, gap: nat): seq<Point>
    requires gap >= 1
    decreases height - y
  {
    if y < height then RowPoints(0, y, width, gap) + RowsFrom(y + gap, width, height, gap) else []
  }

  /** Every point the sampling loops of script.js:45-46 visit, in visiting
      order, with both loop variables stepping by `gap`. */
  function Lattice(width: nat, height: nat, gap: nat): seq<Point>
    requires gap >= 1
  {
    RowsFrom(0, width, height, gap)
  }

  /** One step of the inner loop: the points still to be visited from (x, y)
      on are (x, y) followed by those from (x + gap, y) on. */
  lemma VisitPoint(remaining: seq<Point>, x: nat, y: nat, width: nat, height: nat, gap: nat)
    requires gap >= 1 && x < width
    requires remaining == RowPoints(x, y, width, gap) + RowsFrom(y + gap, width, height, gap)
    ensures remaining != [] && remaining[0] == Point(x, y)
    ensures remaining[1..] == RowPoints(x + gap, y, width, gap) + RowsFrom(y + gap, width, height, gap)
  {
    assert RowPoints(x, y, width, gap) == [Point(x, y)] + RowPoints(x + gap, y, width, gap);
    PopFront(remaining, Point(x, y), RowPoints(x + gap, y, width, gap), RowsFrom(y + gap, width, height, gap));
  }

  lemma PopFront(r: seq<Point>, p: Point, a: seq<Point>, b: seq<Point>)
    requires r == ([p] + a) + b
    ensures r != [] && r[0] == p && r[1..] == a + b
  {
    assert ([p] + a) + b == [p] + (a + b);
  }

  /** Moving the first remaining point to the visited ones keeps the whole. */
  lemma MoveFirst(visited: seq<Point>, remaining: seq<Point>)
    requires remaining != []
    ensures visited + remaining == (visited + [remaining[0]]) + remaining[1..]
  {
    assert remaining == [remaining[0]] + remaining[1..];
  }

  /** One step of the outer loop: row `y` comes first, then the rows after it. */
  lemma VisitRow(y: nat, width: nat, height: nat, gap: nat)
    requires gap >= 1 && y < height
    ensures RowsFrom(y, width, height, gap) ==
            RowPoints(0, y, width, gap) + RowsFrom(y + gap, width, height, gap)
  {
  }

  // ---------------------------------------------------------------------------
  // Decoding the buffer
  // ---------------------------------------------------------------------------

  /** The seed point of lattice point `p`, if its pixel is visible. A read past
      the end of the buffer gives `undefined` in JavaScript, and
      `undefined > 0` is false, so such a point yields nothing. */
  function SeedAt(pixels: seq<Byte>, width: nat, p: Point): Option<SeedPoint> {
    var i := PixelIndex(p.x, p.y, width);
    if i + 3 < |pixels| && pixels[i + 3] > 0
    then Some(SeedPoint(p.x, p.y, Rgb(pixels[i], pixels[i + 1], pixels[i + 2])))
    else None
  }

  /** The seed points of `points`, in order, skipping invisible pixels. */
  function SeedsOf(pixels: seq<Byte>, width: nat, points: seq<Point>): seq<SeedPoint> {
    if points == [] then []
    else
      (match SeedAt(pixels, width, points[0]) case None => [] case Some(s) => [s])
      + SeedsOf(pixels, width, points[1..])
  }

  /** What `Effect.init` extracts from a buffer: one seed per visible lattice
      point, in lattice order. */
  function Sample(pixels: seq<Byte>, width: nat, height: nat, gap: nat): seq<SeedPoint>
    requires gap >= 1
  {
    SeedsOf(pixels, width, Lattice(width, height, gap))
  }

  function Origin(s: SeedPoint): Point {
    Point(s.originX, s.originY)
  }

  /** The lattice points whose pixel is visible. */
  function VisiblePoints(pixels: seq<Byte>, width: nat, height: nat, gap: nat): set<Point>
    requires gap >= 1
  {
    set p | p in Lattice(width, height, gap) && SeedAt(pixels, width, p).Some?
  }

  // ---------------------------------------------------------------------------
  // Arithmetic helpers
  // ---------------------------------------------------------------------------

  lemma DivModUnique(a: int, g: int, q: int, r: int)
    requires g >= 1 && 0 <= r < g && a == q * g + r
    ensures a / g == q && a % g == r
  {
    var q0, r0 := a / g, a % g;
    assert a == q0 * g + r0;
    assert (q - q0) * g == r0 - r;
    assert q - q0 >= 1 ==> (q - q0) * g >= g;
    assert q - q0 <= -1 ==> (q - q0) * g <= -g;
  }

  lemma ModSubGap(a: int, g: int)
    requires a >= g >= 1
    ensures (a - g) % g == a % g
  {
    DivModUnique(a - g, g, a / g - 1, a % g);
  }

  lemma PositiveMultiple(a: int, g: int)
    requires a > 0 && g >= 1 && a % g == 0
    ensures a >= g
  {
    var q := a / g;
    assert a == q * g;
    assert q <= 0 ==> q * g <= 0;
  }

  lemma CeilStep(len: nat, g: nat)
    requires g >= 1 && len >= 1
    ensures Ceil(len, g) == 1 + (if len > g then Ceil(len - g, g) else 0)
  {
    if len > g {
      DivModUnique(len + g - 1, g, (len - 1) / g + 1, (len - 1) % g);
      DivModUnique(len - 1, g, (len - 1) / g, (len - 1) % g);
    } else {
      DivModUnique(len + g - 1, g, 1, len - 1);
    }
  }

  lemma CeilZero(g: nat)
    requires g >= 1
    ensures Ceil(0, g) == 0
  {
    DivModUnique(g - 1, g, 0, g - 1);
  }

  // ---------------------------------------------------------------------------
  // Properties of the lattice
  // ---------------------------------------------------------------------------

  /** The four bytes of every canvas pixel lie inside a buffer of
      `width * height * 4` bytes. */
  lemma PixelIndexInBounds(x: nat, y: nat, width: nat, height: nat)
    requires x < width && y < height
    ensures PixelIndex(x, y, width) + 3 < width * height * 4
  {
    assert y * width <= (height - 1) * width;
    assert y * width + x < height * width;
  }

  lemma {:induction false} RowMembership(x: nat, y: nat, width: nat, gap: nat, p: Point)
    requires gap >= 1
    ensures p in RowPoints(x, y, width, gap) <==>
            p.y == y && x <= p.x < width && (p.x - x) % gap == 0
    decreases width - x
  {
    if x < width {
      RowMembership(x + gap, y, width, gap, p);
      if p.x >= x + gap {
        ModSubGap(p.x - x, gap);
      } else if x < p.x && (p.x - x) % gap == 0 {
        PositiveMultiple(p.x - x, gap);
      }
    }
  }

  lemma {:induction false} RowsMembership(y: nat, width: nat, height: nat, gap: nat, p: Point)
    requires gap >= 1
    ensures p in RowsFrom(y, width, height, gap) <==>
            y <= p.y < height && (p.y - y) % gap == 0 && p.x < width && p.x % gap == 0
    decreases height - y
  {
    if y < height {
      RowMembership(0, y, width, gap, p);
      RowsMembership(y + gap, width, height, gap, p);
      if p.y >= y + gap {
        ModSubGap(p.y - y, gap);
      } else if y < p.y && (p.y - y) % gap == 0 {
        PositiveMultiple(p.y - y, gap);
      }
    }
  }

  /** The loops visit exactly the multiples of `gap` inside the canvas. */
  lemma LatticeMembership(width: nat, height: nat, gap: nat, p: Point)
    requires gap >= 1
    ensures p in Lattice(width, height, gap) <==> InCanvas(p, width, height) && OnGrid(p, gap)
  {
    RowsMembership(0, width, height, gap, p);
  }

  lemma ConcatRowMajor(a: seq<Point>, b: seq<Point>)
    requires StrictlyRowMajor(a) && StrictlyRowMajor(b)
    requires forall i, j :: 0 <= i < |a| && 0 <= j < |b| ==> Before(a[i], b[j])
    ensures StrictlyRowMajor(a + b)
  {
    var c := a + b;
    forall i, j | 0 <= i < j < |c| ensures Before(c[i], c[j]) {
      if j < |a| {
        assert c[i] == a[i] && c[j] == a[j];
      } else if i >= |a| {
        assert c[i] == b[i - |a|] && c[j] == b[j - |a|];
      } else {
        assert c[i] == a[i] && c[j] == b[j - |a|];
      }
    }
  }

  lemma {:induction false} RowOrdered(x: nat, y: nat, width: nat, gap: nat)
    requires gap >= 1
    ensures StrictlyRowMajor(RowPoints(x, y, width, gap))
    ensures forall q :: q in RowPoints(x, y, width, gap) ==> q.y == y && q.x >= x
    decreases width - x
  {
    if x < width {
      RowOrdered(x + gap, y, width, gap);
      var rest := RowPoints(x + gap, y, width, gap);
      assert forall j :: 0 <= j < |rest| ==> rest[j] in rest;
      ConcatRowMajor([Point(x, y)], rest);
    }
  }

  lemma {:induction false} RowsOrdered(y: nat, width: nat, height: nat, gap: nat)
    requires gap >= 1
    ensures StrictlyRowMajor(RowsFrom(y, width, height, gap))
    ensures forall q :: q in RowsFrom(y, width, height, gap) ==> q.y >= y
    decreases height - y
  {
    if y < height {
      RowOrdered(0, y, width, gap);
      RowsOrdered(y + gap, width, height, gap);
      var row, rest := RowPoints(0, y, width, gap), RowsFrom(y + gap, width, height, gap);
      assert forall i :: 0 <= i < |row| ==> row[i] in row;
      assert forall j :: 0 <= j < |rest| ==> rest[j] in rest;
      ConcatRowMajor(row, rest);
    }
  }

  /** The lattice is visited in row-major order (rows outer, columns inner),
      hence no point is visited twice. */
  lemma LatticeRowMajor(width: nat, height: nat, gap: nat)
    requires gap >= 1
    ensures StrictlyRowMajor(Lattice(width, height, gap))
    ensures forall i, j :: 0 <= i < j < |Lattice(width, height, gap)| ==>
              Lattice(width, height, gap)[i] != Lattice(width, height, gap)[j]
  {
    RowsOrdered(0, width, height, gap);
  }

  lemma {:induction false} RowLength(x: nat, y: nat, width: nat, gap: nat)
    requires gap >= 1
    ensures |RowPoints(x, y, width, gap)| == if x < width then Ceil(width - x, gap) else 0
    decreases width - x
  {
    if x < width {
      RowLength(x + gap, y, width, gap);
      CeilStep(width - x, gap);
    }
  }

  lemma {:induction false} RowsLength(y: nat, width: nat, height: nat, gap: nat)
    requires gap >= 1
    ensures |RowsFrom(y, width, height, gap)| ==
            (if y < height then Ceil(height - y, gap) else 0) * Ceil(width, gap)
    decreases height - y
  {
    if y < height {
      RowsLength(y + gap, width, height, gap);
      RowLength(0, y, width, gap);
      CeilZero(gap);
      CeilStep(height - y, gap);
      var k := if y + gap < height then Ceil(height - y - gap, gap) else 0;
      assert (1 + k) * Ceil(width, gap) == Ceil(width, gap) + k * Ceil(width, gap);
    }
  }

  /** The sampling loops take ⌈width/gap⌉ · ⌈height/gap⌉ inner steps. */
  lemma LatticeLength(width: nat, height: nat, gap: nat)
    requires gap >= 1
    ensures |Lattice(width, height, gap)| == Ceil(width, gap) * Ceil(height, gap)
  {
    RowsLength(0, width, height, gap);
    CeilZero(gap);
  }

  // ---------------------------------------------------------------------------
  // Properties of the decoded seeds
  // ---------------------------------------------------------------------------

  lemma {:induction false} SeedsOfConcat(pixels: seq<Byte>, width: nat, a: seq<Point>, b: seq<Point>)
    ensures SeedsOf(pixels, width, a + b) == SeedsOf(pixels, width, a) + SeedsOf(pixels, width, b)
    decreases |a|
  {
    if a != [] {
      assert (a + b)[1..] == a[1..] + b;
      SeedsOfConcat(pixels, width, a[1..], b);
    } else {
      assert a + b == b;
    }
  }

  /** Visiting one more point adds its seed, if it has one. */
  lemma SeedsOfSnoc(pixels: seq<Byte>, width: nat, visited: seq<Point>, p: Point)
    ensures SeedsOf(pixels, width, visited + [p]) ==
            SeedsOf(pixels, width, visited) + (match SeedAt(pixels, width, p) case None => [] case Some(s) => [s])
  {
    SeedsOfConcat(pixels, width, visited, [p]);
    assert [p][1..] == [];
  }

  /** A seed is produced exactly for a visible point of the list. */
  lemma {:induction false} SeedsOfMembership(pixels: seq<Byte>, width: nat, points: seq<Point>, s: SeedPoint)
    ensures s in SeedsOf(pixels, width, points) <==>
            exists k :: 0 <= k < |points| && SeedAt(pixels, width, points[k]) == Some(s)
    decreases |points|
  {
    if points != [] {
      SeedsOfMembership(pixels, width, points[1..], s);
      if exists k :: 0 <= k < |points| && SeedAt(pixels, width, points[k]) == Some(s) {
        var k :| 0 <= k < |points| && SeedAt(pixels, width, points[k]) == Some(s);
        if k > 0 {
          assert points[1..][k - 1] == points[k];
        }
      }
      if exists k :: 0 <= k < |points[1..]| && SeedAt(pixels, width, points[1..][k]) == Some(s) {
        var k :| 0 <= k < |points[1..]| && SeedAt(pixels, width, points[1..][k]) == Some(s);
        assert points[k + 1] == points[1..][k];
      }
    }
  }

  lemma SeedAtOrigin(pixels: seq<Byte>, width: nat, p: Point)
    requires SeedAt(pixels, width, p).Some?
    ensures Origin(SeedAt(pixels, width, p).value) == p
  {
  }

  /** Filtering keeps the order of the points, so the origins of the seeds are
      in strictly increasing row-major order. */
  lemma {:induction false} SeedsOfRowMajor(pixels: seq<Byte>, width: nat, points: seq<Point>)
    requires StrictlyRowMajor(points)
    ensures forall i, j :: 0 <= i < j < |SeedsOf(pixels, width, points)| ==>
              Before(Origin(SeedsOf(pixels, width, points)[i]), Origin(SeedsOf(pixels, width, points)[j]))
    decreases |points|
  {
    if points != [] {
      var rest := points[1..];
      SeedsOfRowMajor(pixels, width, rest);
      var tail := SeedsOf(pixels, width, rest);
      forall j | 0 <= j < |tail| ensures Before(points[0], Origin(tail[j])) {
        SeedsOfMembership(pixels, width, rest, tail[j]);
        var k :| 0 <= k < |rest| && SeedAt(pixels, width, rest[k]) == Some(tail[j]);
        assert rest[k] == points[k + 1];
      }
    }
  }

  lemma {:induction false} SeedsOfCount(pixels: seq<Byte>, width: nat, points: seq<Point>)
    requires forall i, j :: 0 <= i < j < |points| ==> points[i] != points[j]
    ensures |SeedsOf(pixels, width, points)| ==
            |set p | p in points && SeedAt(pixels, width, p).Some?|
    decreases |points|
  {
    var visible := set p | p in points && SeedAt(pixels, width, p).Some?;
    if points == [] {
      assert visible == {};
    } else {
      var rest := points[1..];
      var restVisible := set p | p in rest && SeedAt(pixels, width, p).Some?;
      SeedsOfCount(pixels, width, rest);
      assert points[0] !in rest by {
        forall k | 0 <= k < |rest| ensures rest[k] != points[0] {
          assert rest[k] == points[k + 1];
        }
      }
      assert points == [points[0]] + rest;
      if SeedAt(pixels, width, points[0]).Some? {
        assert visible == {points[0]} + restVisible;
      } else {
        assert visible == restVisible;
      }
    }
  }

  /** The seeds of a buffer are exactly the visible lattice points, each with
      the red, green and blue bytes of its pixel. */
  lemma SampleMembership(pixels: seq<Byte>, width: nat, height: nat, gap: nat, s: SeedPoint)
    requires gap >= 1
    ensures s in Sample(pixels, width, height, gap) <==>
            InCanvas(Origin(s), width, height) && OnGrid(Origin(s), gap) &&
            var i := PixelIndex(s.originX, s.originY, width);
            i + 3 < |pixels| && pixels[i + 3] > 0 &&
            s.colour == Rgb(pixels[i], pixels[i + 1], pixels[i + 2])
  {
    var lattice := Lattice(width, height, gap);
    SeedsOfMembership(pixels, width, lattice, s);
    LatticeMembership(width, height, gap, Origin(s));
    if s in Sample(pixels, width, height, gap) {
      var k :| 0 <= k < |lattice| && SeedAt(pixels, width, lattice[k]) == Some(s);
      assert lattice[k] == Origin(s);
    } else if Origin(s) in lattice {
      var k :| 0 <= k < |lattice| && lattice[k] == Origin(s);
      assert SeedAt(pixels, width, lattice[k]) != Some(s);
    }
  }

  /** The seeds come out in row-major order of their origins, each origin once. */
  lemma SampleRowMajor(pixels: seq<Byte>, width: nat, height: nat, gap: nat)
    requires gap >= 1
    ensures forall i, j :: 0 <= i < j < |Sample(pixels, width, height, gap)| ==>
              Before(Origin(Sample(pixels, width, height, gap)[i]),
                     Origin(Sample(pixels, width, height, gap)[j]))
  {
    LatticeRowMajor(width, height, gap);
    SeedsOfRowMajor(pixels, width, Lattice(width, height, gap));
  }

  /** There are as many seeds as lattice points with a positive alpha byte. */
  lemma SampleCount(pixels: seq<Byte>, width: nat, height: nat, gap: nat)
    requires gap >= 1
    ensures |Sample(pixels, width, height, gap)| == |VisiblePoints(pixels, width, height, gap)|
  {
    LatticeRowMajor(width, height, gap);
    SeedsOfCount(pixels, width, Lattice(width, height, gap));
  }

  lemma {:induction false} SeedsOfTransparent(pixels: seq<Byte>, width: nat, points: seq<Point>)
    requires forall i :: 0 <= i < |pixels| && i % 4 == 3 ==> pixels[i] == 0
    ensures SeedsOf(pixels, width, points) == []
    decreases |points|
  {
    if points != [] {
      var i := PixelIndex(points[0].x, points[0].y, width);
      assert (i + 3) % 4 == 3;
      SeedsOfTransparent(pixels, width, points[1..]);
    }
  }

  /** A fully transparent buffer yields no seeds, whatever the spacing. */
  lemma SampleTransparent(pixels: seq<Byte>, width: nat, height: nat, gap: nat)
    requires gap >= 1
    requires forall i :: 0 <= i < |pixels| && i % 4 == 3 ==> pixels[i] == 0
    ensures Sample(pixels, width, height, gap) == []
  {
    SeedsOfTransparent(pixels, width, Lattice(width, height, gap));
  }

  // ---------------------------------------------------------------------------
  // The inner loop as written at script.js:46
  // ---------------------------------------------------------------------------

  /** Loop variables of the sampling loops. */
  datatype Cursor = Cursor(x: nat, y: nat)

  /** `n` iterations of the inner loop as script.js:46 writes it: the update
      clause is `y += this.gap`, so `x` never moves. */
  function InnerAsWritten(c: Cursor, gap: nat, n: nat): Cursor {
    if n == 0 then c else var d := InnerAsWritten(c, gap, n - 1); Cursor(d.x, d.y + gap)
  }

  /** `n` iterations of the inner loop with the evident intent, `x += this.gap`. */
  function InnerIntended(c: Cursor, gap: nat, n: nat): Cursor {
    if n == 0 then c else var d := InnerIntended(c, gap, n - 1); Cursor(d.x + gap, d.y)
  }

  /** As written, the guard `x < this.width` holds after every number of
      iterations once it holds at the start, so the loop never ends when
      `width > 0`, while `y` grows by `gap` each time. */
  lemma {:induction false} InnerAsWrittenNeverExits(c: Cursor, width: nat, gap: nat, n: nat)
    requires c.x < width
    ensures InnerAsWritten(c, gap, n).x < width
    ensures InnerAsWritten(c, gap, n).y == c.y + n * gap
  {
    if n > 0 {
      InnerAsWrittenNeverExits(c, width, gap, n - 1);
      assert (n - 1) * gap + gap == n * gap;
    }
  }

  /** Once `y` reaches `height` the offset lies past the end of a buffer of
      `width * height * 4` bytes: the as-written loop reads `undefined` from
      then on. */
  lemma PastLastRow(x: nat, y: nat, width: nat, height: nat)
    requires y >= height
    ensures PixelIndex(x, y, width) >= width * height * 4
  {
    assert y * width >= height * width;
  }

  /** The smallest counterexample: a 1 × 1 canvas. Starting the inner loop at
      (0, 0), no number of iterations makes `x < width` false. */
  lemma AsWrittenCounterexample(n: nat)
    ensures InnerAsWritten(Cursor(0, 0), DefaultGap, n).x < 1
  {
    InnerAsWrittenNeverExits(Cursor(0, 0), 1, DefaultGap, n);
  }

  /** With `x += this.gap` the column after `n` iterations is `x + n * gap`,
      so the guard fails after at most `width - x` iterations. */
  lemma {:induction false} InnerIntendedExits(c: Cursor, width: nat, gap: nat, n: nat)
    requires gap >= 1
    ensures InnerIntended(c, gap, n) == Cursor(c.x + n * gap, c.y)
    ensures n >= width - c.x ==> InnerIntended(c, gap, n).x >= width
  {
    if n > 0 {
      InnerIntendedExits(c, width, gap, n - 1);
      assert (n - 1) * gap + gap == n * gap;
    }
    if n >= width - c.x {
      assert n * gap >= n * 1;
    }
  }
}

/** The particle effect of script.js: `Particle` (script.js:7-26) and `Effect`
    (script.js:28-67) as classes whose methods change their fields in place.

    Canvas calls are replaced by values: the buffer `getImageData` returns is
    the `pixels` argument of `Init`, and each `fillRect` call is a `Rect`.
    `Math.random` is the `random` argument: the k-th draw is `random(k)`. */
module Particles {
  import opened Colour
  import opened Sampling

  /** A position or a velocity on the canvas, in exact arithmetic. */
  datatype Vec = Vec(x: real, y: real)

  /** One `fillRect(left, top, width, height)` call. */
  datatype Rect = Rect(left: real, top: real, width: real, height: real)

  /** The decoded image element: only its size is used (script.js:36-37). */
  datatype Image = Image(width: nat, height: nat)

  /** The side of every particle's square (script.js:15). */
  const ParticleSize: real := 30.0

  /** A value `Math.random()` can return. */
  predicate IsDraw(r: real) {
    0.0 <= r < 1.0
  }

  /** One frame of motion: the position moved by the velocity (script.js:23-24). */
  function Step(position: Vec, velocity: Vec): Vec {
    Vec(position.x + velocity.x, position.y + velocity.y)
  }

  /** The position after `n` frames of motion. */
  function Drift(position: Vec, velocity: Vec, n: nat): Vec {
    if n == 0 then position else Step(Drift(position, velocity, n - 1), velocity)
  }

  /** Motion is linear: `n` updates move a particle by `n` times its velocity,
      with no decay and no clamping. */
  lemma {:induction false} DriftIsLinear(position: Vec, velocity: Vec, n: nat)
    ensures Drift(position, velocity, n) ==
            Vec(position.x + (n as real) * velocity.x, position.y + (n as real) * velocity.y)
  {
    if n > 0 {
      DriftIsLinear(position, velocity, n - 1);
      var m := (n - 1) as real;
      assert m * velocity.x + velocity.x == (n as real) * velocity.x;
      assert m * velocity.y + velocity.y == (n as real) * velocity.y;
    }
  }

  /** Where the image is drawn along one axis so that its centre falls on the
      canvas centre (script.js:34-37). */
  function CentreOffset(canvasLen: nat, imageLen: nat): real {
    (canvasLen as real) * 0.5 - (imageLen as real) * 0.5
  }

  /** The image's centre is the canvas centre, so the margins on both sides are
      equal; the image starts inside the canvas exactly when it fits. */
  lemma CentreOffsetCentres(canvasLen: nat, imageLen: nat)
    ensures CentreOffset(canvasLen, imageLen) + (imageLen as real) / 2.0 == (canvasLen as real) / 2.0
    ensures CentreOffset(canvasLen, imageLen) ==
            (canvasLen as real) - (CentreOffset(canvasLen, imageLen) + imageLen as real)
    ensures CentreOffset(canvasLen, imageLen) >= 0.0 <==> imageLen <= canvasLen
  {
  }

  /** A draw scaled to a canvas side lies on the canvas. */
  lemma ScaledDraw(r: real, len: nat)
    requires IsDraw(r)
    ensures 0.0 <= r * (len as real) <= len as real
    ensures len > 0 ==> r * (len as real) < len as real
  {
    assert (len as real) - r * (len as real) == (1.0 - r) * (len as real);
  }

  class Particle {
    const effect: Effect
    var x: real
    var y: real
    const originX: int
    const originY: int
    /** The CSS colour string built at script.js:53. */
    const colour: string
    const size: real := ParticleSize
    const vx: real
    const vy: real

    /** script.js:8-18. The four `Math.random()` draws, in the order the
        source makes them, are `drawX`, `drawY`, `drawVx` and `drawVy`. */
    constructor (effect: Effect, gridX: real, gridY: real, colour: string,
                 drawX: real, drawY: real, drawVx: real, drawVy: real)
      requires IsDraw(drawX) && IsDraw(drawY) && IsDraw(drawVx) && IsDraw(drawVy)
      ensures this.effect == effect && this.colour == colour && size == ParticleSize
      ensures x == drawX * (effect.width as real) && y == drawY * (effect.height as real)
      ensures 0.0 <= x <= effect.width as real && (effect.width > 0 ==> x < effect.width as real)
      ensures 0.0 <= y <= effect.height as real && (effect.height > 0 ==> y < effect.height as real)
      ensures originX == gridX.Floor && originY == gridY.Floor
      ensures vx == drawVx * 2.0 - 1.0 && vy == drawVy * 2.0 - 1.0
      ensures -1.0 <= vx < 1.0 && -1.0 <= vy < 1.0
    {
      this.effect := effect;
      x := drawX * (effect.width as real);
      y := drawY * (effect.height as real);
      originX := gridX.Floor;
      originY := gridY.Floor;
      this.colour := colour;
      vx := drawVx * 2.0 - 1.0;
      vy := drawVy * 2.0 - 1.0;
      ScaledDraw(drawX, effect.width);
      ScaledDraw(drawY, effect.height);
    }

    function Position(): Vec
      reads this
    {
      Vec(x, y)
    }

    function Velocity(): Vec {
      Vec(vx, vy)
    }

    /** script.js:19-21: a `size` × `size` square with its top-left corner
        at the particle's position; nothing changes. */
    method Draw() returns (r: Rect)
      ensures r.left == x && r.top == y
      ensures r.width == ParticleSize && r.height == ParticleSize
    {
      r := Rect(x, y, size, size);
    }

    /** script.js:22-25: the position moves by the velocity; origin, colour,
        size and velocity are constants of the particle. */
    method Update()
      modifies this
      ensures Position() == Step(old(Position()), Velocity())
    {
      x := x + vx;
      y := y + vy;
    }
  }

  class Effect {
    const width: nat
    const height: nat
    const image: Image
    const centerX: real
    const centerY: real
    /** Where the image is drawn: its top-left corner (script.js:36-37). */
    const x: real
    const y: real
    /** The lattice spacing; script.js:39 fixes it at `DefaultGap`. */
    const gap: nat
    var particlesArray: seq<Particle>

    /** The effect owns each of its particles once. */
    ghost predicate Valid()
      reads this
    {
      gap >= 1 &&
      (forall i :: 0 <= i < |particlesArray| ==> particlesArray[i].effect == this) &&
      (forall i, j :: 0 <= i < j < |particlesArray| ==> particlesArray[i] != particlesArray[j])
    }

    /** script.js:29-40, with the spacing as a parameter. */
    constructor (width: nat, height: nat, image: Image, gap: nat)
      requires gap >= 1
      ensures Valid()
      ensures this.width == width && this.height == height && this.image == image && this.gap == gap
      ensures particlesArray == []
      ensures centerX == (width as real) / 2.0 && centerY == (height as real) / 2.0
      ensures x + (image.width as real) / 2.0 == centerX && y + (image.height as real) / 2.0 == centerY
    {
      this.width := width;
      this.height := height;
      this.image := image;
      centerX := (width as real) * 0.5;
      centerY := (height as real) * 0.5;
      x := CentreOffset(width, image.width);
      y := CentreOffset(height, image.height);
      this.gap := gap;
      particlesArray := [];
      CentreOffsetCentres(width, image.width);
      CentreOffsetCentres(height, image.height);
    }

    /** Particle `p` is the one `Init` makes, as its k-th, from seed `s`. */
    ghost predicate Spawned(p: Particle, s: SeedPoint, random: nat -> real, k: nat)
      reads p
    {
      p.effect == this &&
      p.originX == s.originX && p.originY == s.originY &&
      p.colour == Css(s.colour) &&
      p.x == random(4 * k) * (width as real) && p.y == random(4 * k + 1) * (height as real) &&
      p.vx == random(4 * k + 2) * 2.0 - 1.0 && p.vy == random(4 * k + 3) * 2.0 - 1.0
    }

    /** The particles after `before` are the ones made from `seeds`, in order. */
    ghost predicate Made(before: seq<Particle>, seeds: seq<SeedPoint>, random: nat -> real)
      reads this, particlesArray
    {
      |particlesArray| == |before| + |seeds| && particlesArray[..|before|] == before &&
      forall i :: |before| <= i < |particlesArray| ==>
        Spawned(particlesArray[i], seeds[i - |before|], random, i - |before|)
    }

    /** script.js:56, `new Particle(this, x, y, colour)` for seed `s`: the
        k-th particle of an `Init` call takes its four draws from
        `random(4 * k)` on. */
    method Spawn(s: SeedPoint, random: nat -> real, k: nat) returns (particle: Particle)
      requires IsDraw(random(4 * k)) && IsDraw(random(4 * k + 1))
      requires IsDraw(random(4 * k + 2)) && IsDraw(random(4 * k + 3))
      ensures fresh(particle) && Spawned(particle, s, random, k)
    {
      particle := new Particle(this, s.originX as real, s.originY as real, Css(s.colour),
                               random(4 * k), random(4 * k + 1),
                               random(4 * k + 2), random(4 * k + 3));
    }

    /** script.js:56: `this.particlesArray.push(new Particle(this, x, y, colour))`.
        The new particle is the k-th of its `Init` call, the next one after
        `seeds`. */
    method Push(s: SeedPoint, random: nat -> real, k: nat,
                ghost before: seq<Particle>, ghost seeds: seq<SeedPoint>)
      requires Valid() && Made(before, seeds, random) && k == |seeds|
      requires forall j: nat :: IsDraw(random(j))
      modifies this
      ensures Valid() && Made(before, seeds + [s], random)
      ensures particlesArray == old(particlesArray) + [particlesArray[|particlesArray| - 1]]
      ensures fresh(particlesArray[|particlesArray| - 1])
    {
      var particle := Spawn(s, random, k);
      ghost var old_ := particlesArray;
      particlesArray := particlesArray + [particle];
      assert particlesArray[..|before|] == old_[..|before|];
      forall i | |before| <= i < |particlesArray|
        ensures Spawned(particlesArray[i], (seeds + [s])[i - |before|], random, i - |before|)
      {
        if i < |old_| {
          assert particlesArray[i] == old_[i];
          assert (seeds + [s])[i - |before|] == seeds[i - |before|];
        } else {
          assert particlesArray[i] == particle && i - |before| == k;
        }
      }
    }

    /** The body of the sampling loops, script.js:47-57, for lattice point
        (x, y): reads the pixel's four bytes at `(y * width + x) * 4` and, if
        its alpha is positive, pushes a particle with that pixel's colour. */
    method SamplePoint(pixels: seq<Byte>, x: nat, y: nat, random: nat -> real, count: nat,
                       ghost before: seq<Particle>, ghost visited: seq<Point>) returns (count': nat)
      requires Valid() && Made(before, SeedsOf(pixels, width, visited), random)
      requires |pixels| == width * height * 4 && x < width && y < height
      requires forall k: nat :: IsDraw(random(k))
      requires count == |SeedsOf(pixels, width, visited)|
      modifies this
      ensures Valid() && Made(before, SeedsOf(pixels, width, visited + [Point(x, y)]), random)
      ensures count' == |SeedsOf(pixels, width, visited + [Point(x, y)])|
      ensures |particlesArray| >= |old(particlesArray)|
      ensures forall i :: 0 <= i < |old(particlesArray)| ==> particlesArray[i] == old(particlesArray)[i]
      ensures forall i :: |old(particlesArray)| <= i < |particlesArray| ==> fresh(particlesArray[i])
    {
      PixelIndexInBounds(x, y, width, height);
      var index := (y * width + x) * 4;
      var red := pixels[index];
      var green := pixels[index + 1];
      var blue := pixels[index + 2];
      var alpha := pixels[index + 3];
      ghost var seeds := SeedsOf(pixels, width, visited);
      SeedsOfSnoc(pixels, width, visited, Point(x, y));
      if alpha > 0 {
        assert SeedsOf(pixels, width, visited + [Point(x, y)]) == seeds + [SeedPoint(x, y, Rgb(red, green, blue))];
        Push(SeedPoint(x, y, Rgb(red, green, blue)), random, count, before, seeds);
        count' := count + 1;
      } else {
        assert SeedsOf(pixels, width, visited + [Point(x, y)]) == seeds + [];
        count' := count;
      }
    }

    /** script.js:41-60: appends one new particle per visible lattice point,
        in lattice order. `pixels` is the canvas buffer after the image has
        been drawn at (x, y). */
    method Init(pixels: seq<Byte>, random: nat -> real)
      requires Valid()
      requires |pixels| == width * height * 4
      requires forall k: nat :: IsDraw(random(k))
      modifies this
      ensures Valid()
      ensures var seeds := Sample(pixels, width, height, gap);
              |particlesArray| == |old(particlesArray)| + |seeds| &&
              particlesArray[..|old(particlesArray)|] == old(particlesArray) &&
              forall k :: 0 <= k < |seeds| ==>
                Spawned(particlesArray[|old(particlesArray)| + k], seeds[k], random, k)
    {
      ghost var before := particlesArray;
      ghost var visited: seq<Point> := [];
      ghost var lattice := Lattice(width, height, gap);
      ghost var remaining := lattice;
      var count: nat := 0;
      var y: nat := 0;
      while y < height
        invariant Valid()
        invariant visited + remaining == lattice && remaining == RowsFrom(y, width, height, gap)
        invariant count == |SeedsOf(pixels, width, visited)|
        invariant Made(before, SeedsOf(pixels, width, visited), random)
        decreases height - y
      {
        var x: nat := 0;
        VisitRow(y, width, height, gap);
        // script.js:46 updates `y` here, which never ends the loop (see
        // Sampling.InnerAsWrittenNeverExits); this model steps `x` by `gap`.
        while x < width
          invariant Valid()
          invariant visited + remaining == lattice
          invariant remaining == RowPoints(x, y, width, gap) + RowsFrom(y + gap, width, height, gap)
          invariant count == |SeedsOf(pixels, width, visited)|
          invariant Made(before, SeedsOf(pixels, width, visited), random)
          decreases width - x
        {
          count := SamplePoint(pixels, x, y, random, count, before, visited);
          VisitPoint(remaining, x, y, width, height, gap);
          MoveFirst(visited, remaining);
          visited, remaining := visited + [Point(x, y)], remaining[1..];
          x := x + gap;
        }
        assert RowPoints(x, y, width, gap) == [];
        y := y + gap;
      }
      assert remaining == [] && visited + [] == visited;
    }

    /** script.js:61-63: one square per particle, in particle order, at each
        particle's current position. Nothing changes. */
    method Draw() returns (rects: seq<Rect>)
      ensures |rects| == |particlesArray|
      ensures forall i :: 0 <= i < |rects| ==>
                rects[i] == Rect(particlesArray[i].x, particlesArray[i].y, ParticleSize, ParticleSize)
    {
      rects := [];
      var i := 0;
      while i < |particlesArray|
        invariant 0 <= i <= |particlesArray| && |rects| == i
        invariant forall j :: 0 <= j < i ==>
                    rects[j] == Rect(particlesArray[j].x, particlesArray[j].y, ParticleSize, ParticleSize)
      {
        var r := particlesArray[i].Draw();
        rects := rects + [r];
        i := i + 1;
      }
    }

    /** script.js:64-66: every particle moves by its own velocity, once. */
    method Update()
      requires Valid()
      modifies set i | 0 <= i < |particlesArray| :: particlesArray[i]
      ensures Valid()
      ensures forall i :: 0 <= i < |particlesArray| ==>
                particlesArray[i].Position() ==
                Step(old(particlesArray[i].Position()), particlesArray[i].Velocity())
    {
      var i := 0;
      while i < |particlesArray|
        invariant 0 <= i <= |particlesArray|
        invariant forall j :: 0 <= j < i ==>
                    particlesArray[j].Position() ==
                    Step(old(particlesArray[j].Position()), particlesArray[j].Velocity())
        invariant forall j :: i <= j < |particlesArray| ==>
                    particlesArray[j].Position() == old(particlesArray[j].Position())
      {
        particlesArray[i].Update();
        i := i + 1;
      }
    }
  }
}

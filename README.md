# Particle effect of script.js, in Dafny

`script.js` draws an image onto a canvas. It then samples the canvas pixels on
a lattice of spacing `gap`, and creates one `Particle` for each sampled pixel
that is not fully transparent. Each particle starts at a random position with
a random velocity, remembers its grid origin and a CSS colour string built from
the pixel, and moves by its velocity on each `update`.

The project has four modules:

- `Colour` (colour.dfy): RGB channel values and the `rgb(r,g,b)` string the
  effect builds from them. A parser is included, to show that the string keeps
  the whole colour.
- `Sampling` (sampling.dfy): the traversal of `Effect.init`, stated as
  functions on values.
  - `Lattice` gives the grid points the two loops visit.
  - `SeedAt` decodes one pixel of the RGBA buffer.
  - `Sample` gives the seed points, one per visible grid point, in visiting
    order.
  - It also models the inner loop as written at script.js:46, beside the
    evidently intended one.
- `Particles` (particles.dfy): the classes `Particle` and `Effect`, whose
  methods change fields in place.
  - `Effect.Init` runs the two nested loops and pushes onto `particlesArray`.
    It is proved to append exactly the particles that `Sample` describes.
  - `Effect.Update` moves every particle once.
  - The `Draw` methods return the rectangles they would paint and change
    nothing.
- `Scenarios` (scenarios.dfy): two small concrete buffers and what sampling
  them yields.

The model departs from the source in three places:

- **Inner loop (script.js:46).** The inner loop's update clause is
  `y += this.gap`, so `x` never moves and the loop never ends on a canvas of
  positive width. The model's `Effect.Init` steps `x` by `gap`. This is
  recorded under "## Findings".
- **Spacing.** `gap` is a constructor parameter with `gap >= 1`. The source
  fixes it at 5 (script.js:39, `Sampling.DefaultGap`).
- **Colour of drawn squares.** The effect is described as drawing each
  particle in its own colour. The code never sets `fillStyle`
  (script.js:19-21, 61-63), so every square is drawn in the context's current
  fill style. The model follows the code: a `Rect` is only a position and a
  size, and `Particle.colour` is stored but never drawn.

Host services become parameters:

- The buffer that `getImageData` returns (script.js:44) is the `pixels`
  argument of `Effect.Init`.
- `Math.random` is a function `random: nat -> real` whose values lie in
  [0, 1). The k-th particle that one `Init` call creates uses draws `4k` to
  `4k + 3`, in the source's order: x, y, vx, vy.
- Positions and velocities are exact `real`s.

## Model

| member | source | states |
|---|---|---|
| Colour.CssRoundTrip | script.js:53 | parsing the colour string `'rgb(' + red + ',' + green + ',' + blue + ')'` gives back exactly the three channel bytes |
| Colour.CssInjective | script.js:53 | two pixels get the same colour string if and only if their red, green and blue bytes are equal |
| Sampling.PixelIndexInBounds | script.js:44-52 | for 0 <= x < width and 0 <= y < height, all four offsets `(y*width + x)*4` to `+3` lie inside a buffer of `width*height*4` bytes |
| Sampling.LatticeMembership | script.js:45-46 | a point is visited if and only if it lies in [0,width) × [0,height) and both coordinates are multiples of `gap` |
| Sampling.LatticeRowMajor | script.js:45-46 | points are visited in row-major order (rows outer, columns inner), so no point is visited twice |
| Sampling.LatticeLength | script.js:45-46 | the inner body runs ⌈width/gap⌉ · ⌈height/gap⌉ times |
| Sampling.SampleMembership | script.js:48-57 | a seed is produced if and only if its origin is an in-canvas grid point with a positive alpha byte; its colour is the bytes at `index`, `index+1`, `index+2` |
| Sampling.SampleRowMajor | script.js:45-56 | seeds come out in strict row-major order of their origins |
| Sampling.SampleCount | script.js:52-57 | the number of seeds equals the number of grid points whose alpha byte is positive |
| Sampling.SampleTransparent | script.js:52-57 | a buffer whose alpha bytes are all zero yields no seeds, whatever the spacing |
| Sampling.InnerAsWrittenNeverExits | script.js:46 | with the update clause `y += this.gap`, the guard `x < this.width` holds after any number of iterations once it holds at the start, while `y` grows by `gap` each time |
| Sampling.PastLastRow | script.js:46-52 | once `y` reaches `height`, the offset lies past the end of the buffer, so the as-written loop reads `undefined` from then on |
| Sampling.AsWrittenCounterexample | script.js:46 | on a 1 × 1 canvas with the source's spacing 5, the as-written inner loop never leaves column 0 |
| Sampling.InnerIntendedExits | script.js:46 | with `x += this.gap`, after n iterations the column is `x + n*gap` and the row is unchanged, so the guard fails within `width - x` iterations |
| Scenarios.SolidRedPixel | script.js:48-56 | every in-canvas pixel of a solid red buffer decodes to a red seed at that point |
| Scenarios.SolidRedTenByTen | script.js:45-57 | a 10 × 10 opaque red image at spacing 5 yields red seeds at (0,0), (5,0), (0,5), (5,5), in that order |
| Scenarios.OpaqueTwoByTwo | script.js:45-57 | at spacing 1 an opaque 2 × 2 image yields one seed per pixel, row by row, each with that pixel's colour |
| Particles.DriftIsLinear | script.js:22-25 | n updates move a position by n times the velocity |
| Particles.CentreOffsetCentres | script.js:34-37 | the draw offset puts the image centre on the canvas centre, with equal margins; the offset is non-negative exactly when the image fits |
| Particles.ScaledDraw | script.js:10-11 | `Math.random() * len` lies in [0, len], and in [0, len) when len > 0 |
| Particles.Particle.constructor | script.js:8-18 | position = draw × canvas size (on the canvas); origin = floor of the grid coordinates; size 30; velocity = draw × 2 − 1, in [−1, 1) |
| Particles.Particle.Draw | script.js:19-21 | a 30 × 30 square at the particle's position; nothing changes |
| Particles.Particle.Update | script.js:22-25 | the position becomes position + velocity; origin, colour, size and velocity are constants |
| Particles.Effect.constructor | script.js:29-40 | centre = half the canvas size; image offset + half the image size = centre; no particles yet |
| Particles.Effect.Spawn | script.js:56 | a fresh particle of this effect with the seed's origin, the `Css` string of its colour, and position and velocity from draws 4k to 4k + 3 |
| Particles.Effect.Push | script.js:56 | appends one fresh particle made from the next seed with the next four draws, keeping the rest of the array |
| Particles.Effect.SamplePoint | script.js:47-57 | one inner-loop body: a particle is pushed exactly when the pixel's seed exists, and the particle count tracks the seeds seen so far |
| Particles.Effect.Init | script.js:41-60 | appends one particle per seed of `Sample`, in order: grid origin, `Css` colour of the pixel, and position and velocity from the k-th group of four draws; earlier particles are kept |
| Particles.Effect.Draw | script.js:61-63 | one 30 × 30 square per particle, in array order, at each particle's position; nothing changes |
| Particles.Effect.Update | script.js:64-66 | every particle in the array moves by its own velocity exactly once; the array and its ownership invariant are kept |

## Left out

- `src/App.js` and `src/Work.js`: React view state, animations, static content and the contact form. None of it is part of this model.
- Canvas and DOM calls (`getElementById`, `getContext`, `drawImage`, `getImageData`, `fillRect`, `clearRect`). These are host graphics. The buffer is an input, and drawing is a sequence of `Rect` values.
- The `animate` loop with `requestAnimationFrame` (script.js:75-81). This is host scheduling, and its start call is commented out.
- Window sizing and `console.log` (script.js:4-5, 71). These are host I/O. The canvas size is a constructor argument.
- `Math.random` is not modelled. Its values are supplied as the `random` parameter.
- IEEE floating point is not modelled. Positions and velocities are exact reals.
- The image element is only its width and height (`Particles.Image`). Decoding it and waiting for it to load are host behaviour.
- The body of the sampling loops is split into the methods `Effect.SamplePoint` and `Effect.Push`. This keeps each proof small. The reads and the push happen in the source's order.
- Particles.Effect.Init: does not state that the particles it appends are newly allocated objects. Push and SamplePoint do state that. Carrying it through both loops made the proof too costly. `Valid()` still gives that each particle belongs to this effect and appears only once.
- Particles.Particle: the back-reference `effect` is used only for the canvas width and height. Nothing else is read through it.

## Findings

| source | as written | input that shows it | evidently intended | confidence | as-written member | corrected member |
|---|---|---|---|---|---|---|
| script.js:46 | the inner `for` loop's update clause is `y += this.gap`, so `x` stays at 0 and `x < this.width` never becomes false | a 1 × 1 canvas (any width > 0) with gap 5: after any number of iterations x = 0 < 1, while y passes the last row and reads go past the buffer | `x += this.gap` | high; not executed | Sampling.AsWrittenCounterexample | Sampling.InnerIntendedExits |

/** Small concrete buffers and what sampling them yields. */
module Scenarios {
  import opened Colour
  import opened Sampling

  const Red: Rgb := Rgb(255, 0, 0)

  /** A `width` × `height` buffer in which every pixel is opaque red. */
  function SolidRed(width: nat, height: nat): (pixels: seq<Byte>)
    ensures |pixels| == width * height * 4
  {
    seq(width * height * 4, i => if i % 4 == 0 || i % 4 == 3 then 255 else 0)
  }

  /** Every pixel of a solid red buffer decodes to a red seed. */
  lemma SolidRedPixel(width: nat, height: nat, x: nat, y: nat)
    requires x < width && y < height
    ensures SeedAt(SolidRed(width, height), width, Point(x, y)) == Some(SeedPoint(x, y, Red))
  {
    var pixels := SolidRed(width, height);
    var m := y * width + x;
    var i := PixelIndex(x, y, width);
    PixelIndexInBounds(x, y, width, height);
    assert i == 4 * m;
    assert i % 4 == 0 && (i + 1) % 4 == 1 && (i + 2) % 4 == 2 && (i + 3) % 4 == 3;
    assert pixels[i] == 255 && pixels[i + 1] == 0 && pixels[i + 2] == 0 && pixels[i + 3] == 255;
  }

  /** A 10 × 10 opaque red image at spacing 5 gives four seeds, at (0, 0),
      (5, 0), (0, 5) and (5, 5) in that order, all red. */
  lemma SolidRedTenByTen()
    ensures Sample(SolidRed(10, 10), 10, 10, 5) ==
            [SeedPoint(0, 0, Red), SeedPoint(5, 0, Red), SeedPoint(0, 5, Red), SeedPoint(5, 5, Red)]
  {
    var pixels := SolidRed(10, 10);
    assert RowPoints(0, 0, 10, 5) == [Point(0, 0), Point(5, 0)] by {
      assert RowPoints(10, 0, 10, 5) == [];
      assert RowPoints(5, 0, 10, 5) == [Point(5, 0)];
    }
    assert RowPoints(0, 5, 10, 5) == [Point(0, 5), Point(5, 5)] by {
      assert RowPoints(10, 5, 10, 5) == [];
      assert RowPoints(5, 5, 10, 5) == [Point(5, 5)];
    }
    assert RowsFrom(5, 10, 10, 5) == [Point(0, 5), Point(5, 5)] by {
      assert RowsFrom(10, 10, 10, 5) == [];
    }
    var lattice := [Point(0, 0), Point(5, 0), Point(0, 5), Point(5, 5)];
    assert Lattice(10, 10, 5) == lattice;
    SolidRedPixel(10, 10, 0, 0);
    SolidRedPixel(10, 10, 5, 0);
    SolidRedPixel(10, 10, 0, 5);
    SolidRedPixel(10, 10, 5, 5);
    assert SeedsOf(pixels, 10, lattice[3..]) == [SeedPoint(5, 5, Red)] by {
      assert lattice[3..][1..] == [];
    }
    assert lattice[2..][1..] == lattice[3..];
    assert SeedsOf(pixels, 10, lattice[2..]) == [SeedPoint(0, 5, Red)] + SeedsOf(pixels, 10, lattice[3..]);
    assert lattice[1..][1..] == lattice[2..];
    assert SeedsOf(pixels, 10, lattice[1..]) == [SeedPoint(5, 0, Red)] + SeedsOf(pixels, 10, lattice[2..]);
    assert SeedsOf(pixels, 10, lattice) == [SeedPoint(0, 0, Red)] + SeedsOf(pixels, 10, lattice[1..]);
  }

  /** At spacing 1 a 2 × 2 opaque image gives one seed per pixel, row by row,
      each with that pixel's exact colour. */
  lemma OpaqueTwoByTwo(pixels: seq<Byte>)
    requires |pixels| == 16
    requires pixels[3] > 0 && pixels[7] > 0 && pixels[11] > 0 && pixels[15] > 0
    ensures Sample(pixels, 2, 2, 1) ==
            [SeedPoint(0, 0, Rgb(pixels[0], pixels[1], pixels[2])),
             SeedPoint(1, 0, Rgb(pixels[4], pixels[5], pixels[6])),
             SeedPoint(0, 1, Rgb(pixels[8], pixels[9], pixels[10])),
             SeedPoint(1, 1, Rgb(pixels[12], pixels[13], pixels[14]))]
  {
    assert RowPoints(0, 0, 2, 1) == [Point(0, 0), Point(1, 0)] by {
      assert RowPoints(2, 0, 2, 1) == [];
      assert RowPoints(1, 0, 2, 1) == [Point(1, 0)];
    }
    assert RowPoints(0, 1, 2, 1) == [Point(0, 1), Point(1, 1)] by {
      assert RowPoints(2, 1, 2, 1) == [];
      assert RowPoints(1, 1, 2, 1) == [Point(1, 1)];
    }
    assert RowsFrom(1, 2, 2, 1) == [Point(0, 1), Point(1, 1)] by {
      assert RowsFrom(2, 2, 2, 1) == [];
    }
    var lattice := [Point(0, 0), Point(1, 0), Point(0, 1), Point(1, 1)];
    assert Lattice(2, 2, 1) == lattice;
    assert PixelIndex(1, 0, 2) == 4 && PixelIndex(0, 1, 2) == 8 && PixelIndex(1, 1, 2) == 12;
    assert SeedsOf(pixels, 2, lattice[3..]) == [SeedPoint(1, 1, Rgb(pixels[12], pixels[13], pixels[14]))] by {
      assert lattice[3..][1..] == [];
    }
    assert lattice[2..][1..] == lattice[3..];
    assert SeedsOf(pixels, 2, lattice[2..]) == [SeedPoint(0, 1, Rgb(pixels[8], pixels[9], pixels[10]))] + SeedsOf(pixels, 2, lattice[3..]);
    assert lattice[1..][1..] == lattice[2..];
    assert SeedsOf(pixels, 2, lattice[1..]) == [SeedPoint(1, 0, Rgb(pixels[4], pixels[5], pixels[6]))] + SeedsOf(pixels, 2, lattice[2..]);
    assert SeedsOf(pixels, 2, lattice) == [SeedPoint(0, 0, Rgb(pixels[0], pixels[1], pixels[2]))] + SeedsOf(pixels, 2, lattice[1..]);
  }
}

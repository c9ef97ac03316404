/** The linear framebuffer of src/framebuffer.c: colours, single pixels, clipped
    rectangle fills, the vertical background gradient and hit-testing.

    Pixels are 32-bit words; the model stores them in a two-dimensional array indexed
    `[y, x]`, which stands for the word at `base + y * pitch + x * 4`. */
module Framebuffer {
  import opened Common

  /** `struct rect`: origin and extent; a rectangle is half-open on both axes. */
  datatype Rect = Rect(x: int, y: int, w: int, h: int)

  /** `point_in_rect`. */
  predicate PointInRect(px: int, py: int, r: Rect)
  {
    px >= r.x && px < r.x + r.w && py >= r.y && py < r.y + r.h
  }

  /** C's `(int)u` of a `uint32_t` on a two's-complement target. */
  function IntOfU32(u: u32): (i: int)
    ensures -0x8000_0000 <= i < 0x8000_0000
  {
    if u < 0x8000_0000 then u else u - U32_MOD
  }

  // ---------------------------------------------------------------------------
  // Colours

  /** `rgb`: red in bits 16..23, green in 8..15, blue in 0..7. */
  function Rgb(r: bv8, g: bv8, b: bv8): bv32
  {
    ((r as bv32) << 16) | ((g as bv32) << 8) | (b as bv32)
  }

  /** Each channel reads back by shift and mask, and the top byte stays clear. */
  lemma RgbRed(r: bv8, g: bv8, b: bv8)
    ensures ((Rgb(r, g, b) >> 16) & 0xFF) as bv8 == r
  {
  }

  lemma RgbGreen(r: bv8, g: bv8, b: bv8)
    ensures ((Rgb(r, g, b) >> 8) & 0xFF) as bv8 == g
  {
  }

  lemma RgbBlue(r: bv8, g: bv8, b: bv8)
    ensures (Rgb(r, g, b) & 0xFF) as bv8 == b
  {
  }

  lemma RgbTopByteClear(r: bv8, g: bv8, b: bv8)
    ensures Rgb(r, g, b) & 0xFF00_0000 == 0
  {
  }

  /** Channel `k` (0 blue, 1 green, 2 red) of a colour, as a number. */
  function Channel(c: bv32, k: nat): (v: nat)
    requires k < 3
    ensures v < 256
  {
    var s: bv8 := if k == 0 then (c & 0xFF) as bv8 else if k == 1 then ((c >> 8) & 0xFF) as bv8
      else ((c >> 16) & 0xFF) as bv8;
    s as nat
  }

  // ---------------------------------------------------------------------------
  // The vertical gradient

  /** One channel of row `y` as `fb_draw_vertical_gradient` computes it, every step
      in 32-bit unsigned arithmetic; the division needs a nonzero divisor. */
  function GradientChannelAsWritten(t: nat, b: nat, y: u32, height: u32): (v: u32)
    requires t < 256 && b < 256 && Wrap32(height - 1) != 0
  {
    Wrap32(t + Wrap32(Wrap32(b - t) * y) / Wrap32(height - 1))
  }

  /** A one-row surface makes the divisor `height - 1` zero. */
  lemma GradientHeightOneDividesByZero()
    ensures Wrap32(1 - 1) == 0
  {
  }

  /** A channel that falls from top to bottom wraps: from 255 down to 0 over three
      rows, the middle row's value is far outside a byte. */
  lemma GradientFallingChannelWraps()
    ensures GradientChannelAsWritten(255, 0, 1, 3) == 0x8000_0000 - 128 + 255
  {
    assert Wrap32(0 - 255) == 0xFFFF_FF01;
    assert Wrap32(0xFFFF_FF01 * 1) == 0xFFFF_FF01;
    assert 0xFFFF_FF01 / 2 == 0x7FFF_FF80;
  }

  /** The intended channel value: linear interpolation from `t` on row 0 to `b` on
      the last row, rounding toward `t`; a one-row surface shows `t`. */
  function GradientChannel(t: nat, b: nat, y: nat, height: nat): (v: nat)
    requires t < 256 && b < 256 && y < height
    ensures t <= b ==> t <= v <= b
    ensures b <= t ==> b <= v <= t
    ensures y == 0 ==> v == t
    ensures height >= 2 && y == height - 1 ==> v == b
  {
    if height <= 1 then t
    else
      var step := Scaled(if t <= b then b - t else t - b, y, height - 1);
      if t <= b then t + step else t - step
  }

  /** `d * y / m` for `y <= m`: at most `d`, 0 on row 0 and `d` on row `m`. */
  function Scaled(d: nat, y: nat, m: nat): (r: nat)
    requires 0 < m && y <= m
    ensures r <= d
    ensures y == 0 ==> r == 0
    ensures y == m ==> r == d
  {
    MulLeq(d, y, m);
    DivLeq(d * y, d, m);
    if y == m then
      DivOfMultiple(d, m);
      d * y / m
    else
      d * y / m
  }

  lemma MulLeq(d: nat, y: nat, m: nat)
    requires y <= m
    ensures d * y <= d * m
  {
    assert d * m == d * y + d * (m - y);
  }

  lemma DivLeq(p: nat, d: nat, m: nat)
    requires 0 < m && p <= d * m
    ensures p / m <= d
  {
    var q := p / m;
    assert p == m * q + p % m;
    assert m * q <= m * d;
  }

  lemma DivOfMultiple(d: nat, m: nat)
    requires 0 < m
    ensures d * m / m == d
  {
    DivLeq(d * m, d, m);
    var q := d * m / m;
    assert d * m == m * q + d * m % m;
    assert d * m < m * (q + 1);
    if q + 1 <= d {
      MulLeq(m, q + 1, d);
    }
  }

  /** The code as written agrees with the intended value whenever the channel does not
      fall and there are at least two rows (and fewer than 2^24, so that the product
      of a channel difference and a row number fits 32 bits). */
  lemma GradientAgrees(t: nat, b: nat, y: u32, height: u32)
    requires t < 256 && b < 256 && t <= b && y < height && 2 <= height <= 0x100_0000
    ensures GradientChannelAsWritten(t, b, y, height) == GradientChannel(t, b, y, height)
  {
    var d := b - t;
    var m: nat := height - 1;
    MulLeq(y, d, 255);
    var p := d * y;
    assert p < U32_MOD;
    assert Wrap32(b - t) == d && Wrap32(p) == p && Wrap32(m) == m;
    assert GradientChannelAsWritten(t, b, y, height) == Wrap32(t + p / m);
    var step := Scaled(d, y, m);
    assert p / m == step;
  }

  /** The colour of row `y`. */
  function GradientColor(top: bv32, bottom: bv32, y: nat, height: nat): bv32
    requires y < height
  {
    Rgb(GradientChannel(Channel(top, 2), Channel(bottom, 2), y, height) as bv8,
        GradientChannel(Channel(top, 1), Channel(bottom, 1), y, height) as bv8,
        GradientChannel(Channel(top, 0), Channel(bottom, 0), y, height) as bv8)
  }

  /** `struct framebuffer`: its geometry and the pixel memory it points to. */
  class Surface {
    const width: u32
    const height: u32
    const bpp: nat
    const pixels: array2<bv32>

    ghost predicate Valid()
    {
      pixels.Length0 == height && pixels.Length1 == width
    }

    constructor (width: u32, height: u32, bpp: nat)
      ensures Valid() && this.width == width && this.height == height && this.bpp == bpp
      ensures fresh(pixels)
    {
      this.width, this.height, this.bpp := width, height, bpp;
      pixels := new bv32[height, width];
    }

    // -------------------------------------------------------------------------
    // Single pixels

    /** Whether (x, y) lies on the surface. */
    predicate OnSurface(x: int, y: int)
    {
      0 <= x < width && 0 <= y < height
    }

    /** `fb_put_pixel`: write one pixel when (x, y) is on the surface; otherwise
        change nothing. */
    method PutPixel(x: int, y: int, color: bv32)
      requires Valid()
      modifies pixels
      ensures OnSurface(x, y) ==> pixels[y, x] == color
      ensures forall i, j :: 0 <= i < height && 0 <= j < width && (i != y || j != x) ==>
        pixels[i, j] == old(pixels[i, j])
    {
      if x < 0 || y < 0 || x >= width || y >= height {
        return;
      }
      pixels[y, x] := color;
    }

    // -------------------------------------------------------------------------
    // Rectangle fills

    /** The pixels `fb_fill_rect` paints: the rectangle clipped to the surface, and
        nothing at all for an empty rectangle. */
    predicate InFill(r: Rect, x: int, y: int)
    {
      r.w > 0 && r.h > 0 && PointInRect(x, y, r) && OnSurface(x, y)
    }

    /** `fb_fill_rect`: the left and top edges clip at 0, the right and bottom edges
        at the surface size; nothing is painted when the far edge is negative. */
    method FillRect(r: Rect, color: bv32)
      requires Valid()
      requires width < 0x8000_0000 && height < 0x8000_0000
      modifies pixels
      ensures forall i, j :: 0 <= i < height && 0 <= j < width ==>
        pixels[i, j] == (if InFill(r, j, i) then color else old(pixels[i, j]))
    {
      if r.w <= 0 || r.h <= 0 {
        return;
      }
      var x0 := if r.x < 0 then 0 else r.x;
      var y0 := if r.y < 0 then 0 else r.y;
      var x1 := r.x + r.w;
      var y1 := r.y + r.h;
      if x1 < 0 || y1 < 0 {
        return;
      }
      if x1 > IntOfU32(width) {
        x1 := IntOfU32(width);
      }
      if y1 > IntOfU32(height) {
        y1 := IntOfU32(height);
      }
      var y := y0;
      while y < y1
        invariant y == y0 || y0 <= y <= y1
        invariant forall i, j :: 0 <= i < height && 0 <= j < width ==>
          pixels[i, j] == (if InFill(r, j, i) && i < y then color else old(pixels[i, j]))
      {
        FillRow(y, x0, x1, color, r);
        y := y + 1;
      }
    }

    /** One row of `fb_fill_rect`: columns [x0, x1) of row y. */
    method FillRow(y: int, x0: int, x1: int, color: bv32, ghost r: Rect)
      requires Valid() && 0 <= y < height && 0 <= x0 && x1 <= width
      requires r.w > 0 && r.h > 0 && r.y <= y < r.y + r.h
      requires x0 == (if r.x < 0 then 0 else r.x) && x1 == (if r.x + r.w > width then width as int else r.x + r.w)
      modifies pixels
      ensures forall i, j :: 0 <= i < height && 0 <= j < width ==>
        pixels[i, j] == (if i == y && InFill(r, j, i) then color else old(pixels[i, j]))
    {
      var x := x0;
      while x < x1
        invariant x == x0 || x0 <= x <= x1
        invariant forall i, j :: 0 <= i < height && 0 <= j < width ==>
          pixels[i, j] == (if i == y && x0 <= j < x then color else old(pixels[i, j]))
      {
        pixels[y, x] := color;
        x := x + 1;
      }
    }
  
    // -------------------------------------------------------------------------
    // The background gradient

    /** `fb_draw_vertical_gradient`: every pixel of row y gets the colour of row y, so
        each row is one colour, row 0 has the top colour and the last row the bottom
        one. */
    method DrawVerticalGradient(top: bv32, bottom: bv32)
      requires Valid()
      modifies pixels
      ensures forall i, j :: 0 <= i < height && 0 <= j < width ==>
        pixels[i, j] == GradientColor(top, bottom, i, height)
    {
      var y: nat := 0;
      while y < height
        invariant y <= height
        invariant forall i, j :: 0 <= i < y && 0 <= j < width ==>
          pixels[i, j] == GradientColor(top, bottom, i, height)
      {
        var color := GradientColor(top, bottom, y, height);
        FillLine(y, color);
        y := y + 1;
      }
    }

    /** Paint all of row y. */
    method FillLine(y: nat, color: bv32)
      requires Valid() && y < height
      modifies pixels
      ensures forall i, j :: 0 <= i < height && 0 <= j < width ==>
        pixels[i, j] == (if i == y then color else old(pixels[i, j]))
    {
      var x: nat := 0;
      while x < width
        invariant x <= width
        invariant forall i, j :: 0 <= i < height && 0 <= j < width ==>
          pixels[i, j] == (if i == y && j < x then color else old(pixels[i, j]))
      {
        pixels[y, x] := color;
        x := x + 1;
      }
    }
  }
}

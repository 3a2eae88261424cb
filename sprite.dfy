/**
 * The Kirby sprite and `draw_kirby32x32_at`: a 32x32 monochrome bitmap, page-packed
 * (one byte is eight vertical pixels of one column; four pages of 32 columns), copied
 * byte by byte into the display memory of a 128x64 OLED through `oled_write_raw_byte`.
 *
 * Display memory is 8 pages of 128 columns; the byte of page `pg`, column `c` lives at
 * index `pg * 128 + c`.
 */
module Sprite {
  import opened Bytes

  /** `OLED_DISPLAY_WIDTH` of a 128x64 display. */
  const DisplayWidth: nat := 128

  /** `OLED_DISPLAY_HEIGHT` of a 128x64 display. */
  const DisplayHeight: nat := 64

  /** Bytes of display memory: one per column per eight-pixel page. */
  const MatrixSize: nat := DisplayWidth * DisplayHeight / 8

  /** Sprite geometry: `width` columns and `pages` eight-pixel pages. */
  const SpriteWidth: nat := 32
  const SpritePages: nat := 4
  const SpriteBytes: nat := SpriteWidth * SpritePages

  /** `kirbyM`: page 0 first, each page's 32 columns left to right. */
  const Kirby: seq<u8> := [
    // page 0 (pixel rows 0..7)
    0x00,0x00,0x00,0x00,0x00,0x00,0x80,0xC0,0xC0,0xE0,0xF0,0xF0,0xF0,0xF8,0xF8,0xF8,
    0xF8,0xF8,0xF8,0xF0,0xF0,0xF0,0xE0,0xC0,0xC0,0x80,0x00,0x00,0x00,0x00,0x00,0x00,
    // page 1 (pixel rows 8..15)
    0x00,0x00,0x00,0xE0,0xFC,0xFE,0xFF,0xFF,0xFF,0xFF,0x07,0x03,0x07,0xFF,0xFF,0xFF,
    0xFF,0xFF,0xFF,0xFF,0x07,0x03,0x07,0xFF,0xFF,0xFF,0xFE,0xFC,0xE0,0x00,0x00,0x00,
    // page 2 (pixel rows 16..23)
    0x00,0x00,0x00,0x07,0xBF,0xFF,0xFF,0xFF,0xFF,0xFF,0xFF,0xFE,0xFF,0xFF,0xFF,0xFB,
    0xFB,0xFB,0xFF,0xFF,0xFF,0xFE,0xFF,0xFF,0xFF,0xFF,0xFF,0xFF,0x87,0x00,0x00,0x00,
    // page 3 (pixel rows 24..31)
    0x00,0x00,0x00,0x00,0x07,0x0F,0x1F,0x3F,0x3F,0x3F,0x3F,0x1F,0x0F,0x1F,0x1F,0x1F,
    0x1F,0x1F,0x1F,0x0F,0x0F,0x1F,0x3F,0x3F,0x3F,0x3F,0x1F,0x0F,0x07,0x00,0x00,0x00
  ]

  /**
   * The display-memory index of the `j`-th byte the blitter writes: byte `i` of sprite
   * page `p` (j == p * 32 + i) goes to `(y / 8 + p) * 128 + x + i`. A `y` that is not a
   * multiple of eight is rounded down to its page.
   */
  function Addr(x: u8, y: u8, j: nat): nat
  {
    (y / 8 + j / 32) * 128 + x + j % 32
  }

  /** The caller's obligation: the last byte written still lies in display memory. */
  predicate Fits(x: u8, y: u8) {
    Addr(x, y, SpriteBytes - 1) < MatrixSize
  }

  /** Every address the blitter uses lies in display memory when the last one does. */
  lemma AddrBelowLast(x: u8, y: u8, j: nat)
    requires j < SpriteBytes
    ensures Addr(x, y, j) <= Addr(x, y, SpriteBytes - 1)
  {
  }

  /** Display memory after the first `n` writes of a blit of `sprite`, applied in order. */
  function Writes(m: seq<u8>, sprite: seq<u8>, x: u8, y: u8, n: nat): (r: seq<u8>)
    requires |m| == MatrixSize && |sprite| == SpriteBytes && Fits(x, y) && n <= SpriteBytes
    ensures |r| == |m|
  {
    if n == 0 then m
    else
      AddrBelowLast(x, y, n - 1);
      Writes(m, sprite, x, y, n - 1)[Addr(x, y, n - 1) := sprite[n - 1]]
  }

  /** Display memory after the whole of `sprite` is drawn at (x, y). */
  function Blit(m: seq<u8>, sprite: seq<u8>, x: u8, y: u8): seq<u8>
    requires |m| == MatrixSize && |sprite| == SpriteBytes && Fits(x, y)
  {
    Writes(m, sprite, x, y, SpriteBytes)
  }

  /** The set of addresses among the first `n` writes. */
  function Written(x: u8, y: u8, n: nat): set<nat>
  {
    if n == 0 then {} else Written(x, y, n - 1) + {Addr(x, y, n - 1)}
  }

  /** Distinct sprite bytes go to distinct display bytes (pages are 128 apart, columns 32 wide). */
  lemma AddrInjective(x: u8, y: u8, j1: nat, j2: nat)
    requires j1 < SpriteBytes && j2 < SpriteBytes && j1 != j2
    ensures Addr(x, y, j1) != Addr(x, y, j2)
  {
    var p1, i1 := j1 / SpriteWidth, j1 % SpriteWidth;
    var p2, i2 := j2 / SpriteWidth, j2 % SpriteWidth;
    assert j1 == p1 * SpriteWidth + i1 && j2 == p2 * SpriteWidth + i2;
    if p1 == p2 {
      assert i1 != i2;
    } else {
      assert Addr(x, y, j1) - Addr(x, y, j2) == (p1 - p2) * DisplayWidth + i1 - i2;
      assert p1 - p2 >= 1 || p2 - p1 >= 1;
    }
  }

  lemma {:induction false} WrittenMembers(x: u8, y: u8, n: nat, k: nat)
    ensures k in Written(x, y, n) <==> exists j :: 0 <= j < n && Addr(x, y, j) == k
  {
    if n > 0 {
      WrittenMembers(x, y, n - 1, k);
    }
  }

  /** The blitter writes exactly 128 distinct display bytes. */
  lemma {:induction false} WrittenCount(x: u8, y: u8, n: nat)
    requires n <= SpriteBytes
    ensures |Written(x, y, n)| == n
  {
    if n > 0 {
      WrittenCount(x, y, n - 1);
      if Addr(x, y, n - 1) in Written(x, y, n - 1) {
        WrittenMembers(x, y, n - 1, Addr(x, y, n - 1));
        var j :| 0 <= j < n - 1 && Addr(x, y, j) == Addr(x, y, n - 1);
        AddrInjective(x, y, j, n - 1);
      }
    }
  }

  /** After the first `n` writes, the `j`-th written address holds sprite byte `j`. */
  lemma {:induction false} WritesPlaceSprite(m: seq<u8>, sprite: seq<u8>, x: u8, y: u8, n: nat, j: nat)
    requires |m| == MatrixSize && |sprite| == SpriteBytes && Fits(x, y) && n <= SpriteBytes && j < n
    ensures Addr(x, y, j) < MatrixSize
    ensures Writes(m, sprite, x, y, n)[Addr(x, y, j)] == sprite[j]
  {
    AddrBelowLast(x, y, j);
    if j < n - 1 {
      WritesPlaceSprite(m, sprite, x, y, n - 1, j);
      AddrInjective(x, y, j, n - 1);
    }
  }

  /** Display bytes outside the written set keep their old value. */
  lemma {:induction false} WritesFrame(m: seq<u8>, sprite: seq<u8>, x: u8, y: u8, n: nat, k: nat)
    requires |m| == MatrixSize && |sprite| == SpriteBytes && Fits(x, y) && n <= SpriteBytes
    requires k < MatrixSize && k !in Written(x, y, n)
    ensures Writes(m, sprite, x, y, n)[k] == m[k]
  {
    if n > 0 {
      WritesFrame(m, sprite, x, y, n - 1, k);
    }
  }

  /**
   * The blit as a whole: the 128 written addresses get the sprite bytes in order, and
   * every other byte of display memory is unchanged.
   */
  lemma BlitSpec(m: seq<u8>, sprite: seq<u8>, x: u8, y: u8)
    requires |m| == MatrixSize && |sprite| == SpriteBytes && Fits(x, y)
    ensures |Written(x, y, SpriteBytes)| == SpriteBytes
    ensures forall j :: 0 <= j < SpriteBytes ==> Addr(x, y, j) < MatrixSize && Blit(m, sprite, x, y)[Addr(x, y, j)] == sprite[j]
    ensures forall k :: 0 <= k < MatrixSize && k !in Written(x, y, SpriteBytes) ==> Blit(m, sprite, x, y)[k] == m[k]
  {
    WrittenCount(x, y, SpriteBytes);
    forall j | 0 <= j < SpriteBytes
      ensures Addr(x, y, j) < MatrixSize && Blit(m, sprite, x, y)[Addr(x, y, j)] == sprite[j]
    {
      WritesPlaceSprite(m, sprite, x, y, SpriteBytes, j);
    }
    forall k | 0 <= k < MatrixSize && k !in Written(x, y, SpriteBytes)
      ensures Blit(m, sprite, x, y)[k] == m[k]
    {
      WritesFrame(m, sprite, x, y, SpriteBytes, k);
    }
  }

  /**
   * When the sprite lies fully inside the display (x + 32 <= 128, y / 8 + 4 <= 8), byte
   * `i` of sprite page `p` lands on display page `y / 8 + p`, column `x + i`: no row of
   * the sprite wraps onto the next page.
   */
  lemma PlacementOnScreen(x: u8, y: u8, p: nat, i: nat)
    requires x + SpriteWidth <= DisplayWidth && y / 8 + SpritePages <= DisplayHeight / 8
    requires p < SpritePages && i < SpriteWidth
    ensures Fits(x, y)
    ensures Addr(x, y, p * SpriteWidth + i) / DisplayWidth == y / 8 + p
    ensures Addr(x, y, p * SpriteWidth + i) % DisplayWidth == x + i
  {
    var j := p * SpriteWidth + i;
    assert j / SpriteWidth == p && j % SpriteWidth == i;
    assert Addr(x, y, j) == (y / 8 + p) * DisplayWidth + (x + i);
  }

  /** `kirbyM` holds exactly the 128 bytes of four 32-column pages. */
  lemma KirbySize()
    ensures |Kirby| == SpriteBytes
  {
  }

  /**
   * The two loops of `draw_kirby32x32_at`: for each of the four pages, for each of the
   * 32 columns, write the sprite byte to its display address through
   * `oled_write_raw_byte`. The new display memory is the blit of `sprite` at (x, y).
   */
  method BlitSprite(mem: array<u8>, sprite: seq<u8>, x: u8, y: u8)
    requires mem.Length == MatrixSize && |sprite| == SpriteBytes && Fits(x, y)
    modifies mem
    ensures mem[..] == Blit(old(mem[..]), sprite, x, y)
  {
    ghost var m0 := mem[..];
    var yPage: u8 := y / 8;
    var p: u8 := 0;
    while p < SpritePages as u8
      invariant p <= SpritePages
      invariant mem[..] == Writes(m0, sprite, x, y, p * SpriteWidth)
    {
      // (y_page + p) * OLED_DISPLAY_WIDTH + x fits in the uint16_t base
      var base: u16 := (yPage + p) * DisplayWidth + x;
      var i: u8 := 0;
      while i < SpriteWidth as u8
        invariant i <= SpriteWidth
        invariant mem[..] == Writes(m0, sprite, x, y, p * SpriteWidth + i)
      {
        var j := p * SpriteWidth + i;
        assert j / SpriteWidth == p && j % SpriteWidth == i;
        assert Addr(x, y, j) == base + i;
        AddrBelowLast(x, y, j);
        ghost var before := mem[..];
        mem[base + i] := sprite[j];
        assert mem[..] == before[base + i := sprite[j]];
        assert Writes(m0, sprite, x, y, j + 1) == Writes(m0, sprite, x, y, j)[base + i := sprite[j]];
        i := i + 1;
      }
      assert (p + 1) * SpriteWidth == p * SpriteWidth + SpriteWidth;
      p := p + 1;
    }
  }

  /** `draw_kirby32x32_at(x, y)`: the blit of `kirbyM` at (x, y). */
  method DrawKirbyAt(mem: array<u8>, x: u8, y: u8)
    requires mem.Length == MatrixSize && Fits(x, y)
    modifies mem
    ensures |Kirby| == SpriteBytes
    ensures mem[..] == Blit(old(mem[..]), Kirby, x, y)
  {
    KirbySize();
    BlitSprite(mem, Kirby, x, y);
  }
}

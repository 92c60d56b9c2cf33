/** Text drawn into an RGB frame, scaled to fit and cached. */
module FrameText {
  import opened Common
  import opened Frames

  type Text = seq<Byte>
  const NewLine: Byte := 10

  /** The font: 128 characters of eight rows, bit k of a row being its k-th pixel. */
  type Font = f: seq<seq<Byte>> | |f| == 128 && forall i | 0 <= i < 128 :: |f[i]| == 8
    witness seq(128, _ => seq(8, _ => 0))

  // ---------------------------------------------------------------- layout

  function LineLength(s: Text): (n: nat)
    ensures n <= |s|
  {
    if s == [] || s[0] == NewLine then 0 else 1 + LineLength(s[1..])
  }

  /** What strtok_r yields for newlines: the non-empty lines. */
  function Lines(s: Text): (r: seq<Text>)
    ensures forall i | 0 <= i < |r| :: r[i] != []
    decreases |s|
  {
    if s == [] then []
    else if s[0] == NewLine then Lines(s[1..])
    else [s[..LineLength(s)]] + Lines(s[LineLength(s)..])
  }

  function Joined(lines: seq<Text>): Text {
    if lines == [] then [] else lines[0] + Joined(lines[1..])
  }

  function WithoutNewLines(s: Text): Text {
    if s == [] then [] else (if s[0] == NewLine then [] else [s[0]]) + WithoutNewLines(s[1..])
  }

  lemma ConsSlices(s: Text, n: nat)
    requires n < |s|
    ensures s[..n + 1] == [s[0]] + s[1..][..n] && s[n + 1..] == s[1..][n..]
  {
  }

  lemma {:induction false} LinePrefix(s: Text)
    ensures NewLine !in s[..LineLength(s)]
    ensures WithoutNewLines(s) == s[..LineLength(s)] + WithoutNewLines(s[LineLength(s)..])
  {
    if s != [] && s[0] != NewLine {
      var n := LineLength(s[1..]);
      LinePrefix(s[1..]);
      ConsSlices(s, n);
      Associate([s[0]], s[1..][..n], WithoutNewLines(s[n + 1..]));
    } else {
      assert s[LineLength(s)..] == s;
    }
  }

  /** Every character but the newlines is in exactly one line, in order. */
  lemma {:induction false} LinesKeepText(s: Text)
    ensures Joined(Lines(s)) == WithoutNewLines(s)
    ensures forall i | 0 <= i < |Lines(s)| :: NewLine !in Lines(s)[i]
    decreases |s|
  {
    if s != [] {
      LinePrefix(s);
      if s[0] == NewLine {
        LinesKeepText(s[1..]);
      } else {
        LinesKeepText(s[LineLength(s)..]);
        assert Lines(s)[1..] == Lines(s[LineLength(s)..]);
      }
    }
  }

  function Longest(lines: seq<Text>): (n: nat)
    ensures forall i | 0 <= i < |lines| :: |lines[i]| <= n
  {
    if lines == [] then 0
    else
      var n, last := Longest(lines[..|lines| - 1]), |lines[|lines| - 1]|;
      if last > n then last else n
  }

  /** The divisor that keeps a margin: the quotient is an integer, the rest floating point. */
  function Divisor(limit: nat, block: nat): real
    requires block > 0
  {
    var d := (limit / block * 2) as real;
    var e := if d < 2.0 then d else 2.0;
    if e > 1.5 then e else 1.5
  }

  lemma DivisorIs(limit: nat, block: nat)
    requires block > 0
    ensures Divisor(limit, block) == if block <= limit then 2.0 else 1.5
  {
    if block <= limit {
      assert limit / block >= 1;
    } else {
      assert limit / block == 0;
    }
  }

  function Scale(size: nat, block: nat, limit: nat): (s: nat)
    requires block > 0
  {
    DivisorIs(limit, block);
    ((size / block) as real / Divisor(limit, block)).Floor
  }

  /** Height and width scale in the proportion 3 : 2, by shrinking one of them. */
  function Proportions(sx: nat, sy: nat): (r: (nat, nat)) {
    if sx as real < sy as real / 1.5 then (sx, (sx as real * 1.5).Floor)
    else if (sy as real) < sx as real * 1.5 then ((sy as real / 1.5).Floor, sy)
    else (sx, sy)
  }

  lemma ProportionsShrink(sx: nat, sy: nat)
    ensures var (x, y) := Proportions(sx, sy);
      && x <= sx && y <= sy
      && 3 * x - 2 <= 2 * y <= 3 * x + 2
  {
  }

  function Min(a: nat, b: nat): nat {
    if a <= b then a else b
  }

  /** Each scale is the largest that the other one allows. */
  lemma ProportionsExact(sx: nat, sy: nat)
    ensures Proportions(sx, sy) == (Min(sx, 2 * sy / 3), Min(sy, 3 * sx / 2))
  {
  }

  /** A block scaled this way covers at most two thirds of the frame. */
  lemma ScaleBound(size: nat, block: nat, limit: nat)
    requires block > 0
    ensures 3 * (Scale(size, block, limit) * block) <= 2 * size
  {
    DivisorIs(limit, block);
    var q, s := size / block, Scale(size, block, limit);
    assert 3 * s <= 2 * q;
    assert q * block <= size;
    TwoThirdsOf(s, q, block, size);
  }

  lemma TwoThirdsOf(s: nat, q: nat, block: nat, size: nat)
    requires 3 * s <= 2 * q && q * block <= size
    ensures 3 * (s * block) <= 2 * size
  {
    TimesMono(3 * s, 2 * q, block);
    assert (3 * s) * block == 3 * (s * block) && (2 * q) * block == 2 * (q * block);
  }

  lemma DivAtLeast(q: nat, size: nat, block: nat)
    requires block > 0
    ensures q <= size / block <==> q * block <= size
  {
    var d := size / block;
    assert d * block <= size < (d + 1) * block;
    if q <= d {
      TimesMono(q, d, block);
    } else {
      TimesMono(d + 1, q, block);
    }
  }

  /** The scale is the largest one with which the block takes half of the frame, or two thirds of what it divides. */
  lemma ScaleLargest(size: nat, block: nat, limit: nat, s: nat)
    requires block > 0
    ensures s <= Scale(size, block, limit)
      <==> if block <= limit then (2 * s) * block <= size else 3 * s <= 2 * (size / block)
  {
    DivisorIs(limit, block);
    var q := size / block;
    if block <= limit {
      assert s <= Scale(size, block, limit) <==> 2 * s <= q;
      DivAtLeast(2 * s, size, block);
    } else {
      assert s <= Scale(size, block, limit) <==> 3 * s <= 2 * q;
    }
  }

  /** Where the lines go; `startY` is the top of the first one. */
  datatype Layout = Layout(lines: seq<Text>, width: nat, height: nat, sx: nat, sy: nat, startY: nat)
  {
    function Left(n: nat): nat
      requires n < |lines|
    {
      Centred(width, |lines[n]| * 8 * sx)
    }

    function Top(n: nat): nat {
      startY + n * 8 * sy
    }
  }

  function Centred(size: nat, used: nat): nat {
    if size >= used then (size - used) / 2 else 0
  }

  function LayoutOf(text: Text, width: nat, height: nat): Layout
    requires Lines(text) != []
  {
    var lines := Lines(text);
    var blockWidth, blockHeight := 8 * Longest(lines), 8 * |lines|;
    LongestPositive(lines);
    var (sx, sy) := Proportions(Scale(width, blockWidth, 100), Scale(height, blockHeight, 70));
    Layout(lines, width, height, sx, sy, Centred(height, blockHeight * sy))
  }

  lemma LongestPositive(lines: seq<Text>)
    requires lines != [] && lines[0] != []
    ensures Longest(lines) > 0
  {
  }

  /** Every line lies inside the frame. */
  ghost predicate Fits(l: Layout) {
    forall n | 0 <= n < |l.lines| ::
      l.Left(n) + |l.lines[n]| * 8 * l.sx <= l.width && l.Top(n) + 8 * l.sy <= l.height
  }

  lemma ScaledBlock(size: nat, block: nat, limit: nat, s: nat)
    requires block > 0 && s <= Scale(size, block, limit)
    ensures 3 * (block * s) <= 2 * size
  {
    ScaleBound(size, block, limit);
    TimesMono(s, Scale(size, block, limit), block);
  }

  /**
   For every text and frame size the scaled block takes at most two thirds of either
   dimension, so that every line is inside the frame.
   */
  lemma TwoThirds(text: Text, width: nat, height: nat)
    requires Lines(text) != []
    ensures var l := LayoutOf(text, width, height);
      && 3 * (8 * Longest(l.lines) * l.sx) <= 2 * width
      && 3 * (8 * |l.lines| * l.sy) <= 2 * height
  {
    var lines := Lines(text);
    LongestPositive(lines);
    var x, y := Scale(width, 8 * Longest(lines), 100), Scale(height, 8 * |lines|, 70);
    ProportionsShrink(x, y);
    var (sx, sy) := Proportions(x, y);
    ScaledBlock(width, 8 * Longest(lines), 100, sx);
    ScaledBlock(height, 8 * |lines|, 70, sy);
  }

  lemma LineFits(l: Layout, n: nat, longest: nat)
    requires n < |l.lines| && |l.lines[n]| <= longest
    requires 8 * longest * l.sx <= l.width && 8 * |l.lines| * l.sy <= l.height
    requires l.startY == Centred(l.height, 8 * |l.lines| * l.sy)
    ensures l.Left(n) + |l.lines[n]| * 8 * l.sx <= l.width && l.Top(n) + 8 * l.sy <= l.height
  {
    TimesMono(8 * |l.lines[n]|, 8 * longest, l.sx);
    TimesMono(8 * (n + 1), 8 * |l.lines|, l.sy);
    assert n * 8 * l.sy + 8 * l.sy == 8 * (n + 1) * l.sy;
  }

  lemma LayoutFits(text: Text, width: nat, height: nat)
    requires Lines(text) != []
    ensures Fits(LayoutOf(text, width, height))
  {
    TwoThirds(text, width, height);
    var l := LayoutOf(text, width, height);
    forall n | 0 <= n < |l.lines|
      ensures l.Left(n) + |l.lines[n]| * 8 * l.sx <= l.width && l.Top(n) + 8 * l.sy <= l.height
    {
      LineFits(l, n, Longest(l.lines));
    }
  }

  /**
   When anything is drawn at all: the frame is at least twice as wide as the text and, as the
   scales are in the proportion 3 : 2, four times as high, or three times if there are many lines.
   */
  lemma DrawnIff(text: Text, width: nat, height: nat)
    requires Lines(text) != []
    ensures var l := LayoutOf(text, width, height);
      l.sx > 0 && l.sy > 0
      <==> width >= 16 * Longest(l.lines) && height >= (if 8 * |l.lines| <= 70 then 32 else 24) * |l.lines|
  {
    var lines := Lines(text);
    LongestPositive(lines);
    var bw, bh := 8 * Longest(lines), 8 * |lines|;
    var x, y := Scale(width, bw, 100), Scale(height, bh, 70);
    ProportionsExact(x, y);
    ScaleLargest(width, bw, 100, 1);
    ScaleLargest(height, bh, 70, 2);
    DivAtLeast(2, width, bw);
    DivAtLeast(3, height, bh);
  }

  /** The block and each of its lines are centred, up to one pixel. */
  lemma LinesCentred(text: Text, width: nat, height: nat, n: nat)
    requires Lines(text) != [] && n < |Lines(text)|
    ensures var l := LayoutOf(text, width, height);
      && l.Left(n) <= width - (l.Left(n) + |l.lines[n]| * 8 * l.sx) <= l.Left(n) + 1
      && l.Top(0) <= height - l.Top(|l.lines|) <= l.Top(0) + 1
  {
    LayoutFits(text, width, height);
    TwoThirds(text, width, height);
    var l := LayoutOf(text, width, height);
    assert |l.lines| * 8 * l.sy == 8 * |l.lines| * l.sy;
    TimesMono(8 * |l.lines[n]|, 8 * Longest(l.lines), l.sx);
  }

  // ---------------------------------------------------------------- pixels

  /** Bit k of a row. */
  predicate Bit(v: nat, k: nat) {
    if k == 0 then v % 2 == 1 else Bit(v / 2, k - 1)
  }

  function Bits(v: nat, n: nat): (r: seq<bool>) {
    seq(n, k requires 0 <= k < n => Bit(v, k))
  }

  /** The number that bits spell, the first one being the least significant. */
  function Spelled(bits: seq<bool>): nat {
    if bits == [] then 0 else (if bits[0] then 1 else 0) + 2 * Spelled(bits[1..])
  }

  function TwoTo(n: nat): nat {
    if n == 0 then 1 else 2 * TwoTo(n - 1)
  }

  lemma {:induction false} BitsSpell(v: nat, n: nat)
    requires v < TwoTo(n)
    ensures Spelled(Bits(v, n)) == v
  {
    if n > 0 {
      BitsSpell(v / 2, n - 1);
      assert Bits(v, n)[1..] == Bits(v / 2, n - 1);
    }
  }

  /** The colour byte of one font pixel; characters past the table show as the last one. */
  function Glyph(font: Font, ch: Byte, row: nat, col: nat): Byte
    requires row < 8 && col < 8
  {
    if Bit(font[if ch < 127 then ch else 127][row], col) then 0x65 else 0
  }

  lemma Below(x: nat, d: nat, m: nat)
    requires x < m * d
    ensures d > 0 && x / d < m
  {
    var q := x / d;
    assert q * d <= x;
    if q >= m {
      TimesMono(m, q, d);
    }
  }

  lemma CutByEight(x: nat, sx: nat, q: nat, c: nat, r: nat)
    requires sx > 0 && c < 8 && r < sx && x == (8 * q + c) * sx + r
    ensures x / 8 / sx == q
  {
    var p, m := q * sx, c * sx + r;
    TimesMono(c + 1, 8, sx);
    assert x == 8 * p + m;
    DivOf(x / 8, sx, q, m / 8);
  }

  /** The order of the two divisions does not matter. */
  lemma CharIndex(x: nat, sx: nat, len: nat)
    requires sx > 0 && x < len * 8 * sx
    ensures x / 8 / sx == x / sx / 8 < len
  {
    var p := x / sx;
    assert x == p * sx + x % sx;
    CutByEight(x, sx, p / 8, p % 8, x % sx);
    Below(x, sx, 8 * len);
  }

  // ---------------------------------------------------------------- what is drawn

  /** Overwriting part of a sequence. */
  function Splice(s: seq<Byte>, at: nat, b: seq<Byte>): (r: seq<Byte>)
    requires at + |b| <= |s|
    ensures |r| == |s|
  {
    s[..at] + b + s[at + |b|..]
  }

  function CharOf(x: nat, sx: nat, len: nat): (i: nat)
    requires sx > 0 && x < len * 8 * sx
    ensures i < len
  {
    CharIndex(x, sx, len);
    x / 8 / sx
  }

  /** Row or column inside the glyph for a coordinate of the scaled line. */
  function GlyphCoord(v: nat, scale: nat): (c: nat)
    requires scale > 0
    ensures c < 8
  {
    v / scale % 8
  }

  /** The colour of pixel x in one pixel row of a line, by the source's own arithmetic. */
  function Cell(font: Font, line: Text, sx: nat, row: nat, x: nat): Byte
    requires row < 8 && x < |line| * 8 * sx
  {
    Glyph(font, line[CharOf(x, sx, |line|)], row, GlyphCoord(x, sx))
  }

  /** The first n pixels of such a row, three bytes each. */
  function RowBytes(font: Font, line: Text, sx: nat, row: nat, n: nat): (r: seq<Byte>)
    requires row < 8 && n <= |line| * 8 * sx
    ensures |r| == 3 * n
  {
    if n == 0 then [] else
      var c := Cell(font, line, sx, row, n - 1);
      RowBytes(font, line, sx, row, n - 1) + [c, c, c]
  }

  lemma {:induction false} RowByte(font: Font, line: Text, sx: nat, row: nat, n: nat, j: nat)
    requires row < 8 && n <= |line| * 8 * sx && j < 3 * n
    ensures RowBytes(font, line, sx, row, n)[j] == Cell(font, line, sx, row, j / 3)
  {
    if j < 3 * (n - 1) {
      RowByte(font, line, sx, row, n - 1, j);
    } else {
      assert j / 3 == n - 1;
    }
  }

  /** A picture as its pixel rows, three bytes a pixel. */
  type Rows = seq<seq<Byte>>

  ghost predicate Sized(img: Rows, width: nat, height: nat) {
    |img| == height && forall y | 0 <= y < height :: |img[y]| == 3 * width
  }

  /** A line whose first k pixel rows are drawn with the top left corner at (left, top). */
  function LineDrawn(font: Font, img: Rows, width: nat, line: Text, sx: nat, sy: nat, left: nat, top: nat, k: nat): (r: Rows)
    requires Sized(img, width, |img|)
    requires left + |line| * 8 * sx <= width && k <= 8 * sy && top + k <= |img|
    ensures Sized(r, width, |img|)
  {
    if k == 0 then img
    else
      var before := LineDrawn(font, img, width, line, sx, sy, left, top, k - 1);
      before[top + k - 1 := Splice(before[top + k - 1], 3 * left, RowBytes(font, line, sx, GlyphCoord(k - 1, sy), |line| * 8 * sx))]
  }

  function TextDrawn(font: Font, img: Rows, l: Layout, n: nat): (r: Rows)
    requires Fits(l) && n <= |l.lines| && Sized(img, l.width, l.height)
    ensures Sized(r, l.width, l.height)
  {
    if n == 0 then img
    else
      var before := TextDrawn(font, img, l, n - 1);
      LineDrawn(font, before, l.width, l.lines[n - 1], l.sx, l.sy, l.Left(n - 1), l.Top(n - 1), 8 * l.sy)
  }

  function Black(width: nat, height: nat): (r: Rows)
    ensures Sized(r, width, height)
  {
    seq(height, _ => seq(3 * width, _ => 0))
  }

  /** The finished picture. */
  function Picture(font: Font, text: Text, width: nat, height: nat): (r: Rows)
    ensures Sized(r, width, height)
  {
    if Lines(text) == [] then Black(width, height)
    else
      LayoutFits(text, width, height);
      TextDrawn(font, Black(width, height), LayoutOf(text, width, height), |Lines(text)|)
  }

  // ---------------------------------------------------------------- every pixel is right

  lemma {:induction false} LineAt(font: Font, img: Rows, width: nat, line: Text, sx: nat, sy: nat, left: nat, top: nat, k: nat, y: nat, c: nat)
    requires Sized(img, width, |img|)
    requires left + |line| * 8 * sx <= width && k <= 8 * sy && top + k <= |img|
    requires c < 3 * width && y < |img|
    ensures LineDrawn(font, img, width, line, sx, sy, left, top, k)[y][c]
      == if top <= y < top + k && 3 * left <= c < 3 * (left + |line| * 8 * sx)
         then Cell(font, line, sx, GlyphCoord(y - top, sy), (c - 3 * left) / 3)
         else img[y][c]
  {
    if k > 0 {
      LineAt(font, img, width, line, sx, sy, left, top, k - 1, y, c);
      var before := LineDrawn(font, img, width, line, sx, sy, left, top, k - 1);
      assert y != top + k - 1 ==> LineDrawn(font, img, width, line, sx, sy, left, top, k)[y] == before[y];
      if y == top + k - 1 && 3 * left <= c < 3 * (left + |line| * 8 * sx) {
        RowByte(font, line, sx, GlyphCoord(k - 1, sy), |line| * 8 * sx, c - 3 * left);
      }
    }
  }

  /** The unscaled line: eight rows of eight pixels per character. */
  function Plain(font: Font, line: Text, u: nat, v: nat): Byte
    requires u < 8 * |line| && v < 8
  {
    Glyph(font, line[u / 8], v, u % 8)
  }

  /** The line magnified: every font pixel becomes an sx by sy rectangle. */
  function Magnified(font: Font, line: Text, sx: nat, sy: nat, x: nat, y: nat): Byte
    requires x < |line| * 8 * sx && y < 8 * sy
  {
    Below(x, sx, 8 * |line|);
    Below(y, sy, 8);
    Plain(font, line, x / sx, y / sy)
  }

  /** The source's character, row and column are those of the unscaled pixel. */
  lemma CellIsMagnified(font: Font, line: Text, sx: nat, sy: nat, x: nat, y: nat)
    requires x < |line| * 8 * sx && y < 8 * sy
    ensures Cell(font, line, sx, GlyphCoord(y, sy), x) == Magnified(font, line, sx, sy, x, y)
  {
    CharIndex(x, sx, |line|);
    Below(x, sx, 8 * |line|);
    Below(y, sy, 8);
  }

  /** A whole line: the magnified characters in its rectangle, nothing elsewhere. */
  lemma LinePixel(font: Font, img: Rows, width: nat, line: Text, sx: nat, sy: nat, left: nat, top: nat, x: nat, y: nat, k: nat)
    requires Sized(img, width, |img|) && left + |line| * 8 * sx <= width && top + 8 * sy <= |img|
    requires x < width && k < 3 && y < |img|
    ensures var b := LineDrawn(font, img, width, line, sx, sy, left, top, 8 * sy)[y][3 * x + k];
      if top <= y < top + 8 * sy && left <= x < left + |line| * 8 * sx
      then b == Magnified(font, line, sx, sy, x - left, y - top)
      else b == img[y][3 * x + k]
  {
    LineAt(font, img, width, line, sx, sy, left, top, 8 * sy, y, 3 * x + k);
    if top <= y < top + 8 * sy && left <= x < left + |line| * 8 * sx {
      CellIsMagnified(font, line, sx, sy, x - left, y - top);
      assert (3 * x + k - 3 * left) / 3 == x - left;
    }
  }

  /** Pixel (x, y) belongs to the scaled line n. */
  predicate Inside(l: Layout, n: nat, x: nat, y: nat) {
    && n < |l.lines|
    && l.Left(n) <= x < l.Left(n) + |l.lines[n]| * 8 * l.sx
    && l.Top(n) <= y < l.Top(n) + 8 * l.sy
  }

  /** What the font says about it. */
  function Ink(font: Font, l: Layout, n: nat, x: nat, y: nat): Byte
    requires Inside(l, n, x, y)
  {
    Magnified(font, l.lines[n], l.sx, l.sy, x - l.Left(n), y - l.Top(n))
  }

  lemma TopsApart(l: Layout, m: nat, n: nat)
    requires m < n
    ensures l.Top(m) + 8 * l.sy <= l.Top(n)
  {
    TimesMono(8 * (m + 1), 8 * n, l.sy);
  }

  /** One more line: its own pixels show the font, the others stay as they were. */
  lemma TextStep(font: Font, img: Rows, l: Layout, n: nat, x: nat, y: nat, k: nat)
    requires Fits(l) && 0 < n <= |l.lines| && Sized(img, l.width, l.height)
    requires x < l.width && y < l.height && k < 3
    ensures TextDrawn(font, img, l, n)[y][3 * x + k]
      == if Inside(l, n - 1, x, y) then Ink(font, l, n - 1, x, y) else TextDrawn(font, img, l, n - 1)[y][3 * x + k]
  {
    LinePixel(font, TextDrawn(font, img, l, n - 1), l.width, l.lines[n - 1], l.sx, l.sy, l.Left(n - 1), l.Top(n - 1), x, y, k);
  }

  /** The lines drawn after line m leave its pixels alone. */
  lemma {:induction false} TextInside(font: Font, img: Rows, l: Layout, n: nat, m: nat, x: nat, y: nat, k: nat)
    requires Fits(l) && m < n <= |l.lines| && Sized(img, l.width, l.height)
    requires x < l.width && y < l.height && k < 3 && Inside(l, m, x, y)
    ensures TextDrawn(font, img, l, n)[y][3 * x + k] == Ink(font, l, m, x, y)
  {
    if m < n - 1 {
      TextInside(font, img, l, n - 1, m, x, y, k);
      TopsApart(l, m, n - 1);
      assert !Inside(l, n - 1, x, y);
    }
    TextStep(font, img, l, n, x, y, k);
  }

  lemma {:induction false} TextOutside(font: Font, img: Rows, l: Layout, n: nat, x: nat, y: nat, k: nat)
    requires Fits(l) && n <= |l.lines| && Sized(img, l.width, l.height)
    requires x < l.width && y < l.height && k < 3
    requires forall m | 0 <= m < n :: !Inside(l, m, x, y)
    ensures TextDrawn(font, img, l, n)[y][3 * x + k] == img[y][3 * x + k]
  {
    if n > 0 {
      TextStep(font, img, l, n, x, y, k);
      TextOutside(font, img, l, n - 1, x, y, k);
    }
  }

  /** Each pixel of the picture is its font bit where a line covers it and black elsewhere. */
  lemma EveryPixel(font: Font, text: Text, width: nat, height: nat, x: nat, y: nat, k: nat)
    requires x < width && y < height && k < 3
    ensures var b := Picture(font, text, width, height)[y][3 * x + k];
      if Lines(text) == [] then b == 0
      else
        var l := LayoutOf(text, width, height);
        && (forall n | 0 <= n < |l.lines| && Inside(l, n, x, y) :: b == Ink(font, l, n, x, y))
        && ((forall n | 0 <= n < |l.lines| :: !Inside(l, n, x, y)) ==> b == 0)
  {
    if Lines(text) != [] {
      LayoutFits(text, width, height);
      var l := LayoutOf(text, width, height);
      forall n | 0 <= n < |l.lines| && Inside(l, n, x, y)
        ensures Picture(font, text, width, height)[y][3 * x + k] == Ink(font, l, n, x, y)
      {
        TextInside(font, Black(width, height), l, |l.lines|, n, x, y, k);
      }
      if forall n | 0 <= n < |l.lines| :: !Inside(l, n, x, y) {
        TextOutside(font, Black(width, height), l, |l.lines|, x, y, k);
      }
    }
  }

  // ---------------------------------------------------------------- drawing in place

  /** The rows as they lie in the frame's buffer. */
  function Flat(img: Rows): seq<Byte> {
    if img == [] then [] else img[0] + Flat(img[1..])
  }

  lemma {:induction false} FlatSize(img: Rows, width: nat)
    requires Sized(img, width, |img|)
    ensures |Flat(img)| == |img| * (3 * width)
  {
    if img != [] {
      FlatSize(img[1..], width);
      assert |img| * (3 * width) == |img[1..]| * (3 * width) + 3 * width;
    }
  }

  lemma SpliceLater(a: seq<Byte>, s: seq<Byte>, at: nat, b: seq<Byte>)
    requires at + |b| <= |s|
    ensures a + Splice(s, at, b) == Splice(a + s, |a| + at, b)
  {
  }

  lemma SpliceEarlier(s: seq<Byte>, z: seq<Byte>, at: nat, b: seq<Byte>)
    requires at + |b| <= |s|
    ensures Splice(s, at, b) + z == Splice(s + z, at, b)
  {
  }

  /** Writing into row y of the picture is writing at y times the stride. */
  lemma {:induction false} FlatSplice(img: Rows, width: nat, y: nat, c: nat, b: seq<Byte>)
    requires Sized(img, width, |img|) && y < |img| && c + |b| <= 3 * width
    ensures 0 <= y * (3 * width) && y * (3 * width) + 3 * width <= |Flat(img)|
    ensures Flat(img[y := Splice(img[y], c, b)]) == Splice(Flat(img), y * (3 * width) + c, b)
    decreases y
  {
    var row := Splice(img[y], c, b);
    FlatSize(img[1..], width);
    if y == 0 {
      assert img[0 := row][1..] == img[1..];
      SpliceEarlier(img[0], Flat(img[1..]), c, b);
    } else {
      assert img[y := row][1..] == img[1..][y - 1 := row];
      FlatSplice(img[1..], width, y - 1, c, b);
      assert y * (3 * width) == (y - 1) * (3 * width) + 3 * width;
      SpliceLater(img[0], Flat(img[1..]), (y - 1) * (3 * width) + c, b);
    }
  }

  lemma SpliceMore(s: seq<Byte>, at: nat, b: seq<Byte>, c: Byte)
    requires at + |b| + 3 <= |s|
    ensures Splice(s, at, b + [c, c, c])
      == Splice(s, at, b)[at + |b| := c][at + |b| + 1 := c][at + |b| + 2 := c]
  {
  }

  /** Three more bytes after the b that were already written at `at`. */
  method WritePixel(a: array<Byte>, offset: nat, c: Byte, ghost used: nat, ghost was: seq<Byte>, ghost at: nat, ghost b: seq<Byte>)
    requires offset == at + |b| && offset + 3 <= used <= a.Length
    requires |was| == used && a[..used] == Splice(was, at, b)
    modifies a
    ensures a[..used] == Splice(was, at, b + [c, c, c])
  {
    SpliceMore(was, at, b, c);
    a[offset] := c;
    a[offset + 1] := c;
    a[offset + 2] := c;
  }

  /** The inner loop of _frametext_draw_line; neither of its breaks is ever taken. */
  method DrawRow(font: Font, a: array<Byte>, used: nat, width: nat, line: Text, sx: nat, row: nat, left: nat, y: nat)
    requires row < 8 && left + |line| * 8 * sx <= width
    requires 0 <= y * (3 * width) && y * (3 * width) + 3 * width <= used <= a.Length
    modifies a
    ensures a[..used] == Splice(old(a[..used]), y * (3 * width) + 3 * left, RowBytes(font, line, sx, row, |line| * 8 * sx))
  {
    var total, base := |line| * 8 * sx, y * (3 * width);
    ghost var was, done := a[..used], RowBytes(font, line, sx, row, 0);
    var x := 0;
    assert Splice(was, base + 3 * left, []) == was;
    while x < total
      invariant x <= total && |was| == used && done == RowBytes(font, line, sx, row, x)
      invariant a[..used] == Splice(was, base + 3 * left, done)
    {
      if left + x >= width {
        break;
      }
      var offset := base + 3 * (left + x);
      if offset >= used {
        break;
      }
      var c := Cell(font, line, sx, row, x);
      WritePixel(a, offset, c, used, was, base + 3 * left, done);
      done, x := done + [c, c, c], x + 1;
    }
  }

  lemma RowStep(font: Font, img: Rows, width: nat, line: Text, sx: nat, sy: nat, left: nat, top: nat, k: nat)
    requires Sized(img, width, |img|)
    requires left + |line| * 8 * sx <= width && k < 8 * sy && top + k < |img|
    ensures var before := Flat(LineDrawn(font, img, width, line, sx, sy, left, top, k));
      && 0 <= (top + k) * (3 * width) && (top + k) * (3 * width) + 3 * width <= |before|
      && Flat(LineDrawn(font, img, width, line, sx, sy, left, top, k + 1))
        == Splice(before, (top + k) * (3 * width) + 3 * left, RowBytes(font, line, sx, GlyphCoord(k, sy), |line| * 8 * sx))
  {
    var before := LineDrawn(font, img, width, line, sx, sy, left, top, k);
    FlatSplice(before, width, top + k, 3 * left, RowBytes(font, line, sx, GlyphCoord(k, sy), |line| * 8 * sx));
  }

  method DrawNextRow(font: Font, a: array<Byte>, used: nat, width: nat, line: Text, sx: nat, sy: nat, left: nat, top: nat, k: nat, ghost img: Rows)
    requires Sized(img, width, |img|) && used <= a.Length
    requires left + |line| * 8 * sx <= width && k < 8 * sy && top + k < |img|
    requires a[..used] == Flat(LineDrawn(font, img, width, line, sx, sy, left, top, k))
    modifies a
    ensures a[..used] == Flat(LineDrawn(font, img, width, line, sx, sy, left, top, k + 1))
  {
    RowStep(font, img, width, line, sx, sy, left, top, k);
    DrawRow(font, a, used, width, line, sx, GlyphCoord(k, sy), left, top + k);
  }

  /** _frametext_draw_line */
  method DrawLine(font: Font, a: array<Byte>, used: nat, width: nat, line: Text, sx: nat, sy: nat, left: nat, top: nat, ghost img: Rows)
    requires Sized(img, width, |img|) && used <= a.Length && a[..used] == Flat(img)
    requires left + |line| * 8 * sx <= width && top + 8 * sy <= |img|
    modifies a
    ensures a[..used] == Flat(LineDrawn(font, img, width, line, sx, sy, left, top, 8 * sy))
  {
    var y := 0;
    while y < 8 * sy
      invariant y <= 8 * sy
      invariant a[..used] == Flat(LineDrawn(font, img, width, line, sx, sy, left, top, y))
    {
      DrawNextRow(font, a, used, width, line, sx, sy, left, top, y, img);
      y := y + 1;
    }
  }

  /** The first pass over the lines: the size of the unscaled block. */
  method Measure(lines: seq<Text>) returns (blockWidth: nat, blockHeight: nat)
    ensures blockWidth == 8 * Longest(lines) && blockHeight == 8 * |lines|
  {
    blockWidth, blockHeight := 0, 0;
    for n := 0 to |lines|
      invariant blockWidth == 8 * Longest(lines[..n]) && blockHeight == 8 * n
    {
      assert lines[..n + 1][..n] == lines[..n];
      if 8 * |lines[n]| > blockWidth {
        blockWidth := 8 * |lines[n]|;
      }
      blockHeight := blockHeight + 8;
    }
    assert lines[..|lines|] == lines;
  }

  /** The second pass: every line at its place. */
  method DrawLines(font: Font, a: array<Byte>, used: nat, l: Layout, ghost img: Rows)
    requires Fits(l) && Sized(img, l.width, l.height) && used <= a.Length && a[..used] == Flat(img)
    modifies a
    ensures a[..used] == Flat(TextDrawn(font, img, l, |l.lines|))
  {
    for n := 0 to |l.lines|
      invariant a[..used] == Flat(TextDrawn(font, img, l, n))
    {
      DrawLine(font, a, used, l.width, l.lines[n], l.sx, l.sy, l.Left(n), l.Top(n), TextDrawn(font, img, l, n));
    }
  }

  lemma {:induction false} FlatBlack(width: nat, height: nat)
    ensures |Flat(Black(width, height))| == height * (3 * width)
    ensures forall i | 0 <= i < |Flat(Black(width, height))| :: Flat(Black(width, height))[i] == 0
  {
    FlatSize(Black(width, height), width);
    if height > 0 {
      FlatBlack(width, height - 1);
      assert Black(width, height)[1..] == Black(width, height - 1);
    }
  }

  /** The layout as the source computes it, or nothing to draw. */
  method Plan(text: Text, width: nat, height: nat) returns (plan: Option<Layout>)
    ensures plan == if Lines(text) == [] then None else Some(LayoutOf(text, width, height))
  {
    var lines := Lines(text);
    var blockWidth, blockHeight := Measure(lines);
    if blockWidth == 0 || blockHeight == 0 {
      NothingToDraw(text);
      return None;
    }
    var (sx, sy) := Proportions(Scale(width, blockWidth, 100), Scale(height, blockHeight, 70));
    return Some(Layout(lines, width, height, sx, sy, Centred(height, blockHeight * sy)));
  }

  /** The drawing proper, on a black frame. */
  method Paint(font: Font, a: array<Byte>, used: nat, text: Text, width: nat, height: nat)
    requires used <= a.Length && a[..used] == Flat(Black(width, height))
    modifies a
    ensures a[..used] == Flat(Picture(font, text, width, height))
  {
    var plan := Plan(text, width, height);
    if plan.Some? {
      LayoutFits(text, width, height);
      DrawLines(font, a, used, plan.value, Black(width, height));
    }
  }

  lemma NothingToDraw(text: Text)
    requires Longest(Lines(text)) == 0 || |Lines(text)| == 0
    ensures Lines(text) == []
  {
    if Lines(text) != [] {
      LongestPositive(Lines(text));
    }
  }

  const Rgb24: nat := 0x33424752

  class Drawer {
    const font: Font
    const frame: Frame
    var text: Option<Text>

    /** What the cache test relies on: the frame shows the remembered text in its own size. */
    ghost predicate Valid()
      reads this, frame, frame.data
    {
      && frame.Valid()
      && (text.Some? ==> Shows(text.value, frame.meta.width, frame.meta.height))
    }

    ghost predicate Shows(text: Text, width: nat, height: nat)
      reads this, frame, frame.data
    {
      && frame.Valid()
      && frame.meta.width == width && frame.meta.height == height
      && frame.meta.format == Rgb24 && frame.meta.stride == 3 * width
      && frame.Value().data == Flat(Picture(font, text, width, height))
    }

    constructor (font: Font, meta: Meta)
      ensures Valid() && text.None? && fresh(frame) && fresh(frame.data) && this.font == font
    {
      this.font := font;
      frame := new Frame(512 * 1024, meta);
      text := None;
    }

    /**
     us_frametext_draw. Whatever was drawn before, and whether or not the cache is hit, the
     frame then holds the picture of the arguments. The bounds keep the source's 32-bit
     products exact.
     */
    method Draw(text: Text, width: nat, height: nat)
      requires Valid() && width > 0 && height > 0
      requires height * (3 * width) < 0x1_0000_0000 && 8 * |text| < 0x1_0000_0000
      modifies this, frame, frame.data
      ensures Valid() && this.text == Some(text) && Shows(text, width, height)
      ensures frame.data == old(frame.data) || fresh(frame.data)
    {
      if frame.meta.width == width && frame.meta.height == height && this.text == Some(text) {
        return;
      }
      this.text := Some(text);
      Clear(width, height);
      Paint(font, frame.data, frame.used, text, width, height);
    }

    /** The frame takes its new size and turns black. */
    method Clear(width: nat, height: nat)
      modifies frame, frame.data
      ensures frame.Valid() && (frame.data == old(frame.data) || fresh(frame.data))
      ensures frame.meta == old(frame.meta).(width := width, height := height, format := Rgb24, stride := 3 * width)
      ensures frame.data[..frame.used] == Flat(Black(width, height))
    {
      frame.meta := frame.meta.(width := width, height := height, format := Rgb24, stride := 3 * width);
      var used := height * (3 * width);
      FlatBlack(width, height);
      frame.Reallocate(used);
      frame.used := used;
      forall i | 0 <= i < used {
        frame.data[i] := 0;
      }
    }
  }
}

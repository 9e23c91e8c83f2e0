// Rendering of one contact sheet: every preview gets its own tile, in which its
// thumbnail is pasted and its label drawn, pixel by pixel, on one shared canvas.
module ContactSheetLayout {
  import opened Wrappers
  import opened SheetItems
  import opened Text

  datatype Rgb = Rgb(r: nat, g: nat, b: nat)

  const BACKGROUND := Rgb(245, 245, 245)
  const INK := Rgb(0, 0, 0)

  function ScaledSide(value: nat, numerator: nat, denominator: nat): nat
    requires denominator > 0
  {
    (value * numerator + denominator - 1) / denominator
  }

  const TILE_WIDTH: nat := 360
  const TILE_HEIGHT: nat := 285
  const THUMB_SIDE: nat := 225
  const MARGIN: nat := 12
  const LABEL_TOP: nat := 246
  const MAX_LABEL: nat := 18
  const CHAR_STEP: nat := 7

  // The sizes are the source's, scaled by three halves and rounded up.
  lemma ScaledSizes()
    ensures TILE_WIDTH == ScaledSide(240, 3, 2) && TILE_HEIGHT == ScaledSide(190, 3, 2)
    ensures THUMB_SIDE == ScaledSide(150, 3, 2) && MARGIN == ScaledSide(8, 3, 2) && LABEL_TOP == ScaledSide(164, 3, 2)
  {
  }

  // Black on light grey.
  lemma Colours()
    ensures INK == Rgb(0, 0, 0) && BACKGROUND == Rgb(245, 245, 245)
  {
  }

  // A decoded preview after shrinking: its rows of pixels, at most THUMB_SIDE
  // in either direction.
  datatype RawThumb = RawThumb(width: nat, height: nat, rows: seq<seq<Rgb>>)

  predicate FitsTile(t: RawThumb) {
    && t.width <= THUMB_SIDE && t.height <= THUMB_SIDE
    && |t.rows| == t.height && forall y :: 0 <= y < |t.rows| ==> |t.rows[y]| == t.width
  }

  type Thumb = t: RawThumb | FitsTile(t) witness RawThumb(0, 0, [])

  function UpperChar(c: char): char {
    if 'a' <= c <= 'z' then (c as int - 32) as char else c
  }

  // str::to_ascii_uppercase
  function Upper(s: string): (r: string)
    ensures |r| == |s|
  {
    seq(|s|, i requires 0 <= i < |s| => UpperChar(s[i]))
  }

  // The upper-case letter for a letter of either case, and no other change.
  lemma UpperIsNotLower(c: char)
    ensures LowerChar(UpperChar(c)) == LowerChar(c) && !('a' <= UpperChar(c) <= 'z')
  {
  }

  // Seven rows of three bits.
  type Pattern = p: seq<string> | |p| == 7 && forall i :: 0 <= i < 7 ==> |p[i]| == 3
    witness ["000", "000", "000", "000", "000", "000", "000"]

  function FontPattern(c: char): Pattern {
    match c
    case '0' => ["111", "101", "101", "101", "101", "101", "111"]
    case '1' => ["010", "110", "010", "010", "010", "010", "111"]
    case '2' => ["111", "001", "001", "111", "100", "100", "111"]
    case '3' => ["111", "001", "001", "111", "001", "001", "111"]
    case '4' => ["101", "101", "101", "111", "001", "001", "001"]
    case '5' => ["111", "100", "100", "111", "001", "001", "111"]
    case '6' => ["111", "100", "100", "111", "101", "101", "111"]
    case '7' => ["111", "001", "001", "010", "010", "010", "010"]
    case '8' => ["111", "101", "101", "111", "101", "101", "111"]
    case '9' => ["111", "101", "101", "111", "001", "001", "111"]
    case 'A' => ["111", "101", "101", "111", "101", "101", "101"]
    case 'D' => ["110", "101", "101", "101", "101", "101", "110"]
    case 'F' => ["111", "100", "100", "110", "100", "100", "100"]
    case 'G' => ["111", "100", "100", "101", "101", "101", "111"]
    case 'I' => ["111", "010", "010", "010", "010", "010", "111"]
    case 'M' => ["101", "111", "111", "101", "101", "101", "101"]
    case 'P' => ["111", "101", "101", "111", "100", "100", "100"]
    case 'S' => ["111", "100", "100", "111", "001", "001", "111"]
    case 'T' => ["111", "010", "010", "010", "010", "010", "010"]
    case 'V' => ["101", "101", "101", "101", "101", "101", "010"]
    case '#' => ["010", "111", "010", "010", "111", "010", "000"]
    case ':' => ["000", "010", "010", "000", "010", "010", "000"]
    case '-' => ["000", "000", "000", "111", "000", "000", "000"]
    case _ => ["000", "000", "000", "000", "000", "000", "000"]
  }

  // ---------------------------------------------------------------- what is to be drawn

  // Whether a glyph inks a point, from the glyph's top left corner: each bit of
  // the pattern is a square of two by two pixels.
  predicate GlyphInks(pattern: Pattern, dx: int, dy: int) {
    0 <= dx < 6 && 0 <= dy < 14 && pattern[dy / 2][dx / 2] == '1'
  }

  type Label = glyphs: seq<Pattern> | |glyphs| <= MAX_LABEL witness []

  // The glyphs of a label: its first characters.
  function Glyphs(text: string): Label {
    seq(if |text| < MAX_LABEL then |text| else MAX_LABEL, i requires 0 <= i < |text| => FontPattern(text[i]))
  }

  // Eighteen characters at most, seven pixels apart.
  lemma LabelIsCutAt18(text: string, dx: int, dy: int)
    ensures var glyphs := Glyphs(text);
      && |glyphs| == (if |text| < 18 then |text| else 18)
      && (forall i :: 0 <= i < |glyphs| ==> glyphs[i] == FontPattern(text[i]))
      && (LabelInks(glyphs, dx, dy) <==>
            dx >= 0 && dx / 7 < |glyphs| && GlyphInks(FontPattern(text[dx / 7]), dx % 7, dy))
  {
  }

  // The font shows digits, some letters and three signs; any other character
  // leaves a gap.
  lemma DigitsShow(c: char)
    requires c in "0123456789"
    ensures GlyphInks(FontPattern(c), if c == '4' then 0 else 2, 0)
  {
  }

  lemma SomeLettersShow(c: char)
    requires c in "ADFGIMPSTV"
    ensures GlyphInks(FontPattern(c), if c == 'M' || c == 'V' then 0 else 2, 0)
  {
  }

  lemma SignsShow(c: char)
    requires c in "#:-"
    ensures GlyphInks(FontPattern(c), 2, if c == '#' then 0 else if c == ':' then 2 else 6)
  {
  }

  lemma OthersAreBlank(c: char, dx: int, dy: int)
    requires c !in "0123456789ADFGIMPSTV#:-"
    ensures !GlyphInks(FontPattern(c), dx, dy)
  {
  }

  // What is drawn for one item: its caption in upper case and its thumbnail.
  datatype Tile = Tile(caption: Label, thumb: Thumb)

  function TileOf(item: SheetItem, thumb: Thumb): Tile { Tile(Glyphs(Upper(item.caption)), thumb) }

  function TilesOf(items: seq<SheetItem>, thumbs: seq<Thumb>): seq<Tile>
    requires |thumbs| == |items|
  {
    seq(|items|, i requires 0 <= i < |items| => TileOf(items[i], thumbs[i]))
  }

  // Whether a row of glyphs inks a point, from the row's top left corner.
  predicate LabelInks(glyphs: seq<Pattern>, dx: int, dy: int) {
    0 <= dx && dx / CHAR_STEP < |glyphs| && GlyphInks(glyphs[dx / CHAR_STEP], dx % CHAR_STEP, dy)
  }

  predicate ThumbCovers(t: Thumb, dx: int, dy: int) { 0 <= dx < t.width && 0 <= dy < t.height }

  // Drawing a tile: the label over the thumbnail over what was there.
  function TileOver(tile: Tile, x: int, y: int, below: Rgb): Rgb {
    var dx, dy := x - (TILE_WIDTH - tile.thumb.width) / 2, y - MARGIN;
    if LabelInks(tile.caption, x - MARGIN, y - LABEL_TOP) then INK
    else if ThumbCovers(tile.thumb, dx, dy) then tile.thumb.rows[dy][dx]
    else below
  }

  function Columns(count: nat): (cols: nat)
    ensures cols == 2 || cols == 4
  {
    if count <= 4 then 2 else 4
  }

  // Up to four items stand in two columns, more in four.
  lemma ColumnsByCount(count: nat)
    ensures Columns(count) == 2 <==> count <= 4
  {
  }

  function TileIndex(cols: nat, x: nat, y: nat): nat { (y / TILE_HEIGHT) * cols + x / TILE_WIDTH }

  // A sheet of tiles, point by point: the tile of number TileIndex at the point's
  // place in it, or background where there is no tile.
  function Sheet(tiles: seq<Tile>, cols: nat, x: nat, y: nat): Rgb {
    var k := TileIndex(cols, x, y);
    if k < |tiles| then TileOver(tiles[k], x % TILE_WIDTH, y % TILE_HEIGHT, BACKGROUND) else BACKGROUND
  }

  function SheetPixel(items: seq<SheetItem>, thumbs: seq<Thumb>, x: nat, y: nat): Rgb
    requires |thumbs| == |items|
  {
    Sheet(TilesOf(items, thumbs), Columns(|items|), x, y)
  }

  // Thumbnail and label stay inside their tile and apart from each other, and
  // the subtraction that centres the thumbnail never goes below zero.
  lemma TileFitsItsContents(tile: Tile, x: int, y: int)
    ensures tile.thumb.width <= TILE_WIDTH
    ensures ThumbCovers(tile.thumb, x - (TILE_WIDTH - tile.thumb.width) / 2, y - MARGIN) ==>
              0 <= x < TILE_WIDTH && 0 <= y < LABEL_TOP
    ensures LabelInks(tile.caption, x - MARGIN, y - LABEL_TOP) ==> 0 <= x < TILE_WIDTH && LABEL_TOP <= y < TILE_HEIGHT
  {
  }

  // What a point of a sheet shows depends on the item of its own tile only.
  lemma TilesAreIndependent(a: seq<SheetItem>, b: seq<SheetItem>, s: seq<Thumb>, t: seq<Thumb>, x: nat, y: nat)
    requires |a| == |b| == |s| == |t|
    requires var k := TileIndex(Columns(|a|), x, y); k < |a| ==> a[k].caption == b[k].caption && s[k] == t[k]
    ensures SheetPixel(a, s, x, y) == SheetPixel(b, t, x, y)
  {
  }

  // ---------------------------------------------------------------- how it is drawn

  method PasteRgb(canvas: array2<Rgb>, image: Thumb, x: nat, y: nat)
    modifies canvas
    ensures forall px, py :: 0 <= px < canvas.Length0 && 0 <= py < canvas.Length1 ==>
      canvas[px, py] == if ThumbCovers(image, px - x, py - y) then image.rows[py - y][px - x] else old(canvas[px, py])
  {
    for yy := 0 to image.height
      invariant forall px, py :: 0 <= px < canvas.Length0 && 0 <= py < canvas.Length1 ==>
        canvas[px, py] == if ThumbCovers(image, px - x, py - y) && py - y < yy then image.rows[py - y][px - x]
                          else old(canvas[px, py])
    {
      for xx := 0 to image.width
        invariant forall px, py :: 0 <= px < canvas.Length0 && 0 <= py < canvas.Length1 ==>
          canvas[px, py] == if ThumbCovers(image, px - x, py - y) && (py - y < yy || (py - y == yy && px - x < xx))
                            then image.rows[py - y][px - x]
                            else old(canvas[px, py])
      {
        if x + xx < canvas.Length0 && y + yy < canvas.Length1 {
          canvas[x + xx, y + yy] := image.rows[yy][xx];
        }
      }
    }
  }

  // One bit of a glyph: a square of two by two pixels, clipped to the canvas.
  method DrawBit(canvas: array2<Rgb>, x: nat, y: nat, color: Rgb)
    modifies canvas
    ensures forall px, py :: 0 <= px < canvas.Length0 && 0 <= py < canvas.Length1 ==>
      canvas[px, py] == if 0 <= px - x < 2 && 0 <= py - y < 2 then color else old(canvas[px, py])
  {
    for dy := 0 to 2
      invariant forall px, py :: 0 <= px < canvas.Length0 && 0 <= py < canvas.Length1 ==>
        canvas[px, py] == if 0 <= px - x < 2 && 0 <= py - y < dy then color else old(canvas[px, py])
    {
      for dx := 0 to 2
        invariant forall px, py :: 0 <= px < canvas.Length0 && 0 <= py < canvas.Length1 ==>
          canvas[px, py] == if 0 <= px - x < 2 && 0 <= py - y && (py - y < dy || (py - y == dy && px - x < dx))
                            then color else old(canvas[px, py])
      {
        if x + dx < canvas.Length0 && y + dy < canvas.Length1 {
          canvas[x + dx, y + dy] := color;
        }
      }
    }
  }

  method DrawChar(canvas: array2<Rgb>, x: nat, y: nat, pattern: Pattern, color: Rgb)
    modifies canvas
    ensures forall px, py :: 0 <= px < canvas.Length0 && 0 <= py < canvas.Length1 ==>
      canvas[px, py] == if GlyphInks(pattern, px - x, py - y) then color else old(canvas[px, py])
  {
    for row := 0 to 7
      invariant forall px, py :: 0 <= px < canvas.Length0 && 0 <= py < canvas.Length1 ==>
        canvas[px, py] == if GlyphInks(pattern, px - x, py - y) && py - y < 2 * row then color else old(canvas[px, py])
    {
      for col := 0 to 3
        invariant forall px, py :: 0 <= px < canvas.Length0 && 0 <= py < canvas.Length1 ==>
          canvas[px, py] ==
            if GlyphInks(pattern, px - x, py - y)
               && (py - y < 2 * row || (py - y < 2 * row + 2 && px - x < 2 * col))
            then color else old(canvas[px, py])
      {
        if pattern[row][col] == '1' {
          DrawBit(canvas, x + 2 * col, y + 2 * row, color);
        }
      }
    }
  }

  // Whether one of the first `count` glyphs of a label at (x, y) inks a point.
  predicate LabelStart(glyphs: seq<Pattern>, count: nat, x: nat, y: nat, px: nat, py: nat)
    requires count <= |glyphs|
  {
    count > 0 &&
    (LabelStart(glyphs, count - 1, x, y, px, py) || GlyphInks(glyphs[count - 1], px - (x + CHAR_STEP * (count - 1)), py - y))
  }

  // Glyphs do not overlap, so the column of a point tells which glyph can ink it.
  lemma {:induction false} LabelColumn(glyphs: seq<Pattern>, count: nat, x: nat, y: nat, px: nat, py: nat)
    requires count <= |glyphs|
    ensures LabelStart(glyphs, count, x, y, px, py) <==>
              LabelInks(glyphs, px - x, py - y) && px - x < CHAR_STEP * count
  {
    if count > 0 {
      LabelColumn(glyphs, count - 1, x, y, px, py);
      var dx := px - x;
      if CHAR_STEP * (count - 1) <= dx < CHAR_STEP * count {
        assert dx / CHAR_STEP == count - 1 && dx % CHAR_STEP == dx - CHAR_STEP * (count - 1);
      }
    }
  }

  method DrawText(canvas: array2<Rgb>, x: nat, y: nat, glyphs: seq<Pattern>, color: Rgb)
    modifies canvas
    ensures forall px, py :: 0 <= px < canvas.Length0 && 0 <= py < canvas.Length1 ==>
      canvas[px, py] == if LabelInks(glyphs, px - x, py - y) then color else old(canvas[px, py])
  {
    var cursor := x;
    for i := 0 to |glyphs|
      invariant cursor == x + CHAR_STEP * i
      invariant forall px, py :: 0 <= px < canvas.Length0 && 0 <= py < canvas.Length1 ==>
        canvas[px, py] == if LabelStart(glyphs, i, x, y, px, py) then color else old(canvas[px, py])
    {
      DrawChar(canvas, cursor, y, glyphs[i], color);
      cursor := cursor + CHAR_STEP;
    }
    forall px, py | 0 <= px < canvas.Length0 && 0 <= py < canvas.Length1
      ensures LabelStart(glyphs, |glyphs|, x, y, px, py) <==> LabelInks(glyphs, px - x, py - y)
    {
      LabelColumn(glyphs, |glyphs|, x, y, px, py);
      assert LabelInks(glyphs, px - x, py - y) ==> px - x < CHAR_STEP * |glyphs|;
    }
  }

  predicate InTile(column: nat, row: nat, x: nat, y: nat) {
    && column * TILE_WIDTH <= x < column * TILE_WIDTH + TILE_WIDTH
    && row * TILE_HEIGHT <= y < row * TILE_HEIGHT + TILE_HEIGHT
  }

  method PaintTile(canvas: array2<Rgb>, left: nat, top: nat, tile: Tile)
    modifies canvas
    ensures forall x, y :: 0 <= x < canvas.Length0 && 0 <= y < canvas.Length1 ==>
      canvas[x, y] == TileOver(tile, x - left, y - top, old(canvas[x, y]))
  {
    PasteRgb(canvas, tile.thumb, left + (TILE_WIDTH - tile.thumb.width) / 2, top + MARGIN);
    DrawText(canvas, left + MARGIN, top + LABEL_TOP, tile.caption, INK);
  }

  // A point lies in the tile whose number is its tile index.
  lemma TileOfIndex(cols: nat, k: nat, x: nat, y: nat)
    requires cols == 2 || cols == 4
    requires x < TILE_WIDTH * cols
    ensures TileIndex(cols, x, y) == k <==> InTile(k % cols, k / cols, x, y)
    ensures TileIndex(cols, x, y) == k ==>
      x % TILE_WIDTH == x - (k % cols) * TILE_WIDTH && y % TILE_HEIGHT == y - (k / cols) * TILE_HEIGHT
  {
    TileBounds(k % cols, k / cols, x, y);
    if cols == 2 {
      IndexOfTwo(k, x / TILE_WIDTH, y / TILE_HEIGHT);
    } else {
      IndexOfFour(k, x / TILE_WIDTH, y / TILE_HEIGHT);
    }
  }

  lemma TileBounds(column: nat, row: nat, x: nat, y: nat)
    ensures InTile(column, row, x, y) <==> x / TILE_WIDTH == column && y / TILE_HEIGHT == row
    ensures x % TILE_WIDTH == x - (x / TILE_WIDTH) * TILE_WIDTH && y % TILE_HEIGHT == y - (y / TILE_HEIGHT) * TILE_HEIGHT
  {
  }

  lemma IndexOfTwo(k: nat, column: nat, row: nat)
    requires column < 2
    ensures row * 2 + column == k <==> k % 2 == column && k / 2 == row
  {
  }

  lemma IndexOfFour(k: nat, column: nat, row: nat)
    requires column < 4
    ensures row * 4 + column == k <==> k % 4 == column && k / 4 == row
  {
  }

  // Drawing the next tile over the sheet so far fills its own place, which is
  // still blank, and touches no pixel of another.
  lemma OneMoreTile(tiles: seq<Tile>, tile: Tile, cols: nat, x: nat, y: nat)
    requires (cols == 2 || cols == 4) && x < TILE_WIDTH * cols
    ensures var left, top := |tiles| % cols * TILE_WIDTH, |tiles| / cols * TILE_HEIGHT;
      Sheet(tiles + [tile], cols, x, y) == TileOver(tile, x - left, y - top, Sheet(tiles, cols, x, y))
  {
    TileOfIndex(cols, |tiles|, x, y);
    TileFitsItsContents(tile, x - |tiles| % cols * TILE_WIDTH, y - |tiles| / cols * TILE_HEIGHT);
  }

  method DrawTile(sheet: array2<Rgb>, index: nat, cols: nat, tile: Tile, ghost tiles: seq<Tile>)
    requires |tiles| == index && (cols == 2 || cols == 4) && sheet.Length0 == TILE_WIDTH * cols
    requires forall x, y :: 0 <= x < sheet.Length0 && 0 <= y < sheet.Length1 ==> sheet[x, y] == Sheet(tiles, cols, x, y)
    modifies sheet
    ensures forall x, y :: 0 <= x < sheet.Length0 && 0 <= y < sheet.Length1 ==>
      sheet[x, y] == Sheet(tiles + [tile], cols, x, y)
  {
    PaintTile(sheet, index % cols * TILE_WIDTH, index / cols * TILE_HEIGHT, tile);
    forall x, y | 0 <= x < sheet.Length0 && 0 <= y < sheet.Length1
      ensures sheet[x, y] == Sheet(tiles + [tile], cols, x, y)
    {
      OneMoreTile(tiles, tile, cols, x, y);
    }
  }

  // Decoding and shrinking a preview is another library's work: any function
  // from data URLs to images that fit will do.
  method RenderContactSheet(items: seq<SheetItem>, decode: PreviewText -> Option<Thumb>)
    returns (ok: bool, sheet: array2<Rgb>, ghost thumbs: seq<Thumb>)
    ensures ok <==> forall i :: 0 <= i < |items| ==> decode(items[i].url).Some?
    ensures ok ==>
      && |thumbs| == |items|
      && (forall i :: 0 <= i < |items| ==> decode(items[i].url) == Some(thumbs[i]))
      && sheet.Length0 == TILE_WIDTH * Columns(|items|)
      && sheet.Length1 == TILE_HEIGHT * ((|items| + Columns(|items|) - 1) / Columns(|items|))
      && (forall x, y :: 0 <= x < sheet.Length0 && 0 <= y < sheet.Length1 ==>
            sheet[x, y] == SheetPixel(items, thumbs, x, y))
  {
    var cols := Columns(|items|);
    var rows := (|items| + cols - 1) / cols;
    sheet := new Rgb[TILE_WIDTH * cols, TILE_HEIGHT * rows]((x, y) => BACKGROUND);
    thumbs := [];
    ghost var tiles: seq<Tile> := [];
    for index := 0 to |items|
      invariant |thumbs| == |tiles| == index
      invariant forall i :: 0 <= i < index ==> decode(items[i].url) == Some(thumbs[i])
      invariant forall i :: 0 <= i < index ==> tiles[i] == TileOf(items[i], thumbs[i])
      invariant forall x, y :: 0 <= x < sheet.Length0 && 0 <= y < sheet.Length1 ==> sheet[x, y] == Sheet(tiles, cols, x, y)
    {
      var decoded := decode(items[index].url);
      if decoded.None? {
        ok := false;
        return;
      }
      var tile := TileOf(items[index], decoded.value);
      DrawTile(sheet, index, cols, tile, tiles);
      tiles := tiles + [tile];
      thumbs := thumbs + [decoded.value];
    }
    assert tiles == TilesOf(items, thumbs);
    ok := true;
  }

  // Every item has its tile on the sheet, so none is clipped or dropped.
  lemma EveryTileIsOnTheSheet(count: nat, k: nat, x: nat, y: nat)
    requires k < count && InTile(k % Columns(count), k / Columns(count), x, y)
    ensures var cols := Columns(count);
            && x < TILE_WIDTH * cols && y < TILE_HEIGHT * ((count + cols - 1) / cols)
            && TileIndex(cols, x, y) == k
  {
    var cols := Columns(count);
    TileOfIndex(cols, k, x, y);
  }
}

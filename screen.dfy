/** The screen decoder ParseNSCRJson (json.c:165-231): a `height*width`
    buffer of 16-bit tile words, filled from the `data` arrays of the
    `layers`, each tile value corrected by the tileset size and packed with
    its palette and flip bits. */
module Screen {
  import opened Outcomes
  import opened MachineInt
  import opened CJson
  import opened Scalars

  /** The decoded screen, the fields of `struct JsonToScreenOptions`. */
  datatype ScreenTable = ScreenTable(height: Int32, width: Int32, data: seq<bv16>)

  /** What an allocated buffer word holds before the decoder writes to it. */
  const BLANK_WORD: bv16 := 0

  /** The word count `malloc(sizeof(unsigned short) * height * width)`
      provides; a negative dimension allocates nothing usable. */
  function BufferLength(height: Int32, width: Int32): nat {
    if height < 0 || width < 0 then 0 else height * width
  }

  /** `firstgid` of the second tileset (0 when there is none). */
  function FirstGid(tilesets: Option<Json>): Int32 {
    GetInt(Lookup(ArrayItem(tilesets, 1), "firstgid"))
  }

  /** json.c:190-200: with exactly one tileset no correction applies (size
      0); otherwise the size is the second tileset's `firstgid` minus one, and
      a size of at most 1 is fatal. */
  function TilesetSize(tilesets: Option<Json>): (r: Result<Int32>)
    ensures r.Failure? ==> r.error == WrongTilesetIndex
    ensures r == Success(0) <==> ArraySize(tilesets) == 1
    ensures r.Success? && ArraySize(tilesets) != 1 ==> r.value >= 2
  {
    if ArraySize(tilesets) == 1 then Success(0)
    else
      var size := Wrap32(FirstGid(tilesets) - 1);
      if size <= 1 then Failure(WrongTilesetIndex) else Success(size)
  }

  /** No tileset at all, or a second `firstgid` from INT_MIN+1 to 2, is
      fatal; a larger second `firstgid` gives a size one smaller than it;
      `firstgid` INT_MIN wraps to the largest `int` and is accepted. */
  lemma TilesetSizeCases(tilesets: Option<Json>)
    ensures ArraySize(tilesets) == 0 ==> TilesetSize(tilesets) == Failure(WrongTilesetIndex)
    ensures ArraySize(tilesets) >= 2 && -0x8000_0000 < FirstGid(tilesets) <= 2 ==>
              TilesetSize(tilesets) == Failure(WrongTilesetIndex)
    ensures ArraySize(tilesets) >= 2 && FirstGid(tilesets) > 2 ==>
              TilesetSize(tilesets) == Success(FirstGid(tilesets) - 1)
    ensures ArraySize(tilesets) >= 2 && FirstGid(tilesets) == -0x8000_0000 ==>
              TilesetSize(tilesets) == Success(0x7FFF_FFFF)
  {
  }

  /** json.c:217-222: the corrected tile index and the palette, as the
      32-bit patterns C's operators see, packed into the stored word. The
      flip bits are read off the corrected index itself (a logical shift has
      the same zero test as C's shift of a negative `int`), and the index is
      not masked before the final `& 0xFFFF`. */
  function PackTile(index: bv32, palette: bv32): bv16 {
    var vFlip := (index >> 30) != 0;
    var hFlip := (index >> 31) != 0;
    var word := index | (if vFlip then 1 << 11 else 0) | (if hFlip then 1 << 10 else 0) | (palette << 12);
    (word & 0xFFFF) as bv16
  }

  /** json.c:209-223: the word a raw tile value leaves in the buffer, or
      `None` for the empty tile (raw 0), which is not written. */
  function TileWord(raw: Int32, tilesetSize: Int32): (r: Option<bv16>)
    ensures r.None? <==> raw == 0
  {
    var tileInt := Wrap32(raw - 1);
    if tileInt == -1 then None
    else
      var palette := if tilesetSize != 0 then CDiv(tileInt, tilesetSize) else 0;
      var index := if tilesetSize != 0 then CRem(tileInt, tilesetSize) else tileInt;
      Some(PackTile(Bits32(index), Bits32(palette)))
  }

  /** The two worked examples: with one tileset, raw 1 is tile 0 with
      palette 0; with a second `firstgid` of 11 (size 10), raw 21 is tile 0
      of palette 2. */
  lemma TileWordExamples()
    ensures TileWord(1, 0) == Some(0)
    ensures TileWord(21, 10) == Some(0x2000)
  {
    TileWordSplit(1, 0);
    PackTileLayout(0, 0);
    TileWordSplit(21, 10);
    PackTileLayout(0, 2);
  }

  /** The flip flags come from bits 30 and 31 of the corrected value: with
      no tileset correction, bit 30 sets the vertical flip bit (11) of the
      word. */
  lemma TileWordFlipExample()
    ensures TileWord(0x4000_0001, 0) == Some(0x0800)
  {
    FlipSplit();
    PackTileFlipBit();
  }

  lemma FlipSplit()
    ensures TileWord(0x4000_0001, 0) == Some(PackTile(0x4000_0000, 0))
  {
    TileWordSplit(0x4000_0001, 0);
    Bits32InRange(0x4000_0000);
    Bits32InRange(0);
  }

  lemma PackTileFlipBit()
    ensures PackTile(0x4000_0000, 0) == 0x0800
  {
  }

  /** With a tileset correction the flags are taken from the remainder:
      the same raw value yields no flip bit, and its high bits reach the
      palette field instead. */
  lemma TileWordFlipLostExample()
    ensures TileWord(0x4000_0001, 10) == Some(0x6004)
  {
    FlipLostSplit();
    PackTileFlipLost();
  }

  lemma FlipLostSplit()
    ensures TileWord(0x4000_0001, 10) == Some(PackTile(Bits32(4), Bits32(0x666_6666)))
  {
    CDivRemNonNegative(0x4000_0000, 10);
    assert 0x4000_0000 % 10 == 4 && 0x4000_0000 / 10 == 0x666_6666;
    assert Wrap32(0x4000_0000) == 0x4000_0000;
  }

  lemma PackTileFlipLost()
    ensures PackTile(Bits32(4), Bits32(0x666_6666)) == 0x6004
  {
    Bits32InRange(4);
    Bits32InRange(0x666_6666);
  }

  /** A non-empty tile value is split as C splits it: for a raw value of at
      least 1, the corrected index and the palette are the remainder and the
      quotient of `raw - 1` by the tileset size (with no correction and
      palette 0 for size 0). */
  lemma TileWordSplit(raw: Int32, tilesetSize: Int32)
    requires raw >= 1 && tilesetSize >= 0
    ensures var t := raw - 1;
            var index := if tilesetSize == 0 then t else t % tilesetSize;
            var palette := if tilesetSize == 0 then 0 else t / tilesetSize;
            TileWord(raw, tilesetSize) == Some(PackTile(Bits32(index), Bits32(palette)))
  {
    if tilesetSize != 0 {
      CDivRemNonNegative(raw - 1, tilesetSize);
    }
  }

  /** With a tileset correction of at most 2^30, a tile value of at least 1
      leaves a remainder below 2^30, so neither flip flag is raised: the
      word holds the unmasked index and the palette and nothing else. */
  lemma TileWordCorrectedNoFlip(raw: Int32, tilesetSize: Int32)
    requires raw >= 1 && 2 <= tilesetSize <= 0x4000_0000
    ensures var index := Bits32((raw - 1) % tilesetSize);
            var palette := Bits32((raw - 1) / tilesetSize);
            TileWord(raw, tilesetSize) == Some(((index | (palette << 12)) & 0xFFFF) as bv16)
  {
    TileWordSplit(raw, tilesetSize);
    BelowFlipBits((raw - 1) % tilesetSize);
    PackNoFlip(Bits32((raw - 1) % tilesetSize), Bits32((raw - 1) / tilesetSize));
  }

  /** A negative remainder keeps its sign bits, so both flip flags are
      raised even with a correction: raw -1 with size 10 leaves -2. */
  lemma TileWordNegativeExample()
    ensures TileWord(-1, 10) == Some(0xFFFE)
  {
    NegativeSplit();
    PackTileNegative();
  }

  lemma NegativeSplit()
    ensures TileWord(-1, 10) == Some(PackTile(Bits32(-2), Bits32(0)))
  {
    assert Wrap32(-2) == -2;
    assert CDiv(-2, 10) == 0 && CRem(-2, 10) == -2;
  }

  lemma PackTileNegative()
    ensures PackTile(Bits32(-2), Bits32(0)) == 0xFFFE
  {
    Bits32MinusTwo();
    Bits32InRange(0);
    PackTileSignBits();
  }

  lemma Bits32MinusTwo()
    ensures Bits32(-2) == 0xFFFF_FFFE
  {
    assert -2 % TWO_32 == 0xFFFF_FFFE % TWO_32;
    Bits32InRange(0xFFFF_FFFE);
  }

  lemma PackTileSignBits()
    ensures PackTile(0xFFFF_FFFE, 0) == 0xFFFE
  {
  }

  lemma BelowFlipBits(x: int)
    requires 0 <= x < 0x4000_0000
    ensures Bits32(x) < 0x4000_0000
  {
    Bits32InRange(x);
    SmallPattern(x);
  }

  lemma SmallPattern(x: int)
    requires 0 <= x < 0x4000_0000
    ensures x as bv32 < 0x4000_0000
  {
  }

  /** Bits 30 and 31 clear: no flip flag is added. */
  lemma PackNoFlip(index: bv32, palette: bv32)
    requires index < 0x4000_0000
    ensures PackTile(index, palette) == ((index | (palette << 12)) & 0xFFFF) as bv16
  {
  }

  /** Bit layout: an index below 2^10 and a palette below 2^4 are stored
      side by side, the index in bits 0-9 and the palette in bits 12-15 (see
      WordFields), with both flip bits clear. */
  lemma PackTileLayout(index: int, palette: int)
    requires 0 <= index < 0x400 && 0 <= palette < 0x10
    ensures PackTile(Bits32(index), Bits32(palette)) == (index as bv16) | ((palette as bv16) << 12)
  {
    SmallBits(index);
    SmallBits(palette);
    PackSmall(index as bv32, palette as bv32);
  }

  /** Such a word reads back as its parts: bits 0-9 give the index, the flip
      bits 10 and 11 are clear and bits 12-15 give the palette. */
  lemma WordFields(index: bv16, palette: bv16)
    requires index < 0x400 && palette < 0x10
    ensures (index | (palette << 12)) & 0x3FF == index
    ensures (index | (palette << 12)) & 0xC00 == 0
    ensures (index | (palette << 12)) >> 12 == palette
  {
  }

  lemma SmallBits(x: int)
    requires 0 <= x < 0x400
    ensures Bits32(x) == x as bv32 && x as bv32 < 0x400 && (x as bv32) as bv16 == x as bv16
  {
  }

  /** The same on bit patterns. */
  lemma PackSmall(index: bv32, palette: bv32)
    requires index < 0x400 && palette < 0x10
    ensures PackTile(index, palette) == (index as bv16) | ((palette as bv16) << 12)
  {
  }

  /** The tile value that the decoder turns back into tile `index` of
      palette `palette`: one more than `palette * size + index`. A tileset
      of at most 2^10 tiles declares every such value. */
  lemma TileWordInverse(index: int, palette: int, tilesetSize: Int32)
    requires 2 <= tilesetSize <= 0x400 && 0 <= index < tilesetSize && 0 <= palette < 0x10
    ensures palette * tilesetSize + index + 1 < 0x8000_0000
    ensures TileWord(palette * tilesetSize + index + 1, tilesetSize) ==
            Some((index as bv16) | ((palette as bv16) << 12))
  {
    MulBelow(palette, tilesetSize);
    var raw := palette * tilesetSize + index + 1;
    TileWordSplit(raw, tilesetSize);
    DivModUnique(palette, index, tilesetSize);
    PackTileLayout(index, palette);
  }

  /** A palette below 2^4 times a size of at most 2^10 stays below 2^14. */
  lemma MulBelow(palette: int, tilesetSize: int)
    requires 0 <= palette < 0x10 && 0 <= tilesetSize <= 0x400
    ensures 0 <= palette * tilesetSize <= 0xF * 0x400
  {
  }

  /** Euclidean division recovers the quotient and the remainder it was
      built from. */
  lemma DivModUnique(q: int, r: int, b: int)
    requires b > 0 && 0 <= r < b
    ensures (q * b + r) / b == q && (q * b + r) % b == r
  {
    var x := q * b + r;
    var d := x / b - q;
    assert d * b == r - x % b by {
      assert x == (x / b) * b + x % b;
    }
    if d >= 1 {
      MulAtLeast(d, b);
    } else if d <= -1 {
      MulAtLeast(-d, b);
    }
  }

  lemma {:induction false} MulAtLeast(d: int, b: int)
    requires d >= 1 && b > 0
    ensures d * b >= b
    decreases d
  {
    if d > 1 {
      MulAtLeast(d - 1, b);
      assert d * b == (d - 1) * b + b;
    }
  }

  /** The tile value an entry of a layer's `data` array holds. */
  function RawTile(tile: Json): Int32 {
    GetInt(Some(tile))
  }

  /** The entries of a layer's `data` array, in the order
      `cJSON_ArrayForEach` visits them. */
  function LayerTiles(layer: Json): seq<Json> {
    Children(Lookup(Some(layer), "data"))
  }

  /** Whether the entry at position `p` of a layer is a non-empty tile,
      i.e. one the decoder writes to word `p` of the buffer. */
  predicate Writes(layer: Json, p: nat) {
    p < |LayerTiles(layer)| && RawTile(LayerTiles(layer)[p]) != 0
  }

  /** Every non-empty tile of `tiles` lands inside a buffer of `length`
      words (a write past the allocation is undefined in C). */
  predicate TilesFit(tiles: seq<Json>, length: nat) {
    forall p :: 0 <= p < |tiles| && RawTile(tiles[p]) != 0 ==> p < length
  }

  /** The same for every layer. */
  predicate LayersFit(layers: seq<Json>, length: nat) {
    forall l :: 0 <= l < |layers| ==> TilesFit(LayerTiles(layers[l]), length)
  }

  /** The buffer after one layer: the entry at position `p` replaces word
      `p` when it is a non-empty tile. A write past the buffer, which C
      leaves undefined and the decoder's precondition rules out, changes
      nothing here. */
  function WriteTiles(buf: seq<bv16>, tiles: seq<Json>, tilesetSize: Int32): (r: seq<bv16>)
    ensures |r| == |buf|
    decreases |tiles|
  {
    if |tiles| == 0 then buf
    else
      var k := |tiles| - 1;
      var done := WriteTiles(buf, tiles[..k], tilesetSize);
      match TileWord(RawTile(tiles[k]), tilesetSize)
      case None => done
      case Some(w) => if k < |done| then done[k := w] else done
  }

  /** The buffer after the layers in order; each layer starts again at
      word 0, so later layers overwrite earlier ones. */
  function WriteLayers(buf: seq<bv16>, layers: seq<Json>, tilesetSize: Int32): (r: seq<bv16>)
    ensures |r| == |buf|
    decreases |layers|
  {
    if |layers| == 0 then buf
    else
      var k := |layers| - 1;
      WriteTiles(WriteLayers(buf, layers[..k], tilesetSize), LayerTiles(layers[k]), tilesetSize)
  }

  /** One layer: word `p` holds the tile word of entry `p` when that entry
      is a non-empty tile, and keeps its old value otherwise. */
  lemma {:induction false} WriteTilesAt(buf: seq<bv16>, tiles: seq<Json>, tilesetSize: Int32, p: nat)
    requires p < |buf|
    ensures WriteTiles(buf, tiles, tilesetSize)[p] ==
            if p < |tiles| && RawTile(tiles[p]) != 0 then TileWord(RawTile(tiles[p]), tilesetSize).value
            else buf[p]
    decreases |tiles|
  {
    if |tiles| != 0 {
      var k := |tiles| - 1;
      assert forall q :: 0 <= q < k ==> tiles[..k][q] == tiles[q];
      WriteTilesAt(buf, tiles[..k], tilesetSize, p);
    }
  }

  /** A word no layer writes keeps its initial value. */
  lemma ScreenUntouched(buf: seq<bv16>, layers: seq<Json>, tilesetSize: Int32, p: nat)
    requires p < |buf|
    requires forall l :: 0 <= l < |layers| ==> !Writes(layers[l], p)
    ensures WriteLayers(buf, layers, tilesetSize)[p] == buf[p]
  {
    ScreenAbove(buf, layers, tilesetSize, p, 0);
    assert layers[..0] == [];
  }

  /** A word holds the tile word of the last layer that writes it. */
  lemma ScreenTopmost(buf: seq<bv16>, layers: seq<Json>, tilesetSize: Int32, p: nat, l: nat)
    requires p < |buf|
    requires l < |layers| && Writes(layers[l], p)
    requires forall m :: l < m < |layers| ==> !Writes(layers[m], p)
    ensures WriteLayers(buf, layers, tilesetSize)[p] == TileWord(RawTile(LayerTiles(layers[l])[p]), tilesetSize).value
  {
    ScreenAbove(buf, layers, tilesetSize, p, l + 1);
    var below := layers[..l + 1];
    assert below[|below| - 1] == layers[l];
    ScreenLastWrites(buf, below, tilesetSize, p);
  }

  /** Layers from `n` on that do not write word `p` leave it as the first
      `n` layers left it. */
  lemma {:induction false} ScreenAbove(buf: seq<bv16>, layers: seq<Json>, tilesetSize: Int32, p: nat, n: nat)
    requires p < |buf| && n <= |layers|
    requires forall m :: n <= m < |layers| ==> !Writes(layers[m], p)
    ensures WriteLayers(buf, layers, tilesetSize)[p] == WriteLayers(buf, layers[..n], tilesetSize)[p]
    decreases |layers|
  {
    if n == |layers| {
      assert layers[..n] == layers;
    } else {
      var k := |layers| - 1;
      ScreenLastSkips(buf, layers, tilesetSize, p);
      var rest := layers[..k];
      assert forall m :: n <= m < k ==> rest[m] == layers[m];
      ScreenAbove(buf, rest, tilesetSize, p, n);
      assert rest[..n] == layers[..n];
    }
  }

  /** A last layer that does not write word `p` leaves it as the layers
      below it left it. */
  lemma ScreenLastSkips(buf: seq<bv16>, layers: seq<Json>, tilesetSize: Int32, p: nat)
    requires p < |buf| && |layers| > 0
    requires !Writes(layers[|layers| - 1], p)
    ensures WriteLayers(buf, layers, tilesetSize)[p] == WriteLayers(buf, layers[..|layers| - 1], tilesetSize)[p]
  {
    var k := |layers| - 1;
    WriteTilesAt(WriteLayers(buf, layers[..k], tilesetSize), LayerTiles(layers[k]), tilesetSize, p);
  }

  /** A last layer that writes word `p` decides it. */
  lemma ScreenLastWrites(buf: seq<bv16>, layers: seq<Json>, tilesetSize: Int32, p: nat)
    requires p < |buf| && |layers| > 0
    requires Writes(layers[|layers| - 1], p)
    ensures WriteLayers(buf, layers, tilesetSize)[p] ==
            TileWord(RawTile(LayerTiles(layers[|layers| - 1])[p]), tilesetSize).value
  {
    var k := |layers| - 1;
    WriteTilesAt(WriteLayers(buf, layers[..k], tilesetSize), LayerTiles(layers[k]), tilesetSize, p);
  }

  function Height(json: Option<Json>): Int32 {
    GetInt(Lookup(json, "height"))
  }

  function Width(json: Option<Json>): Int32 {
    GetInt(Lookup(json, "width"))
  }

  function Tilesets(json: Option<Json>): Option<Json> {
    Lookup(json, "tilesets")
  }

  function Layers(json: Option<Json>): seq<Json> {
    Children(Lookup(json, "layers"))
  }

  /** A freshly allocated buffer. */
  function BlankBuffer(json: Option<Json>): seq<bv16> {
    seq(BufferLength(Height(json), Width(json)), _ => BLANK_WORD)
  }

  /** Once the tileset check has passed, every write lands in the buffer. */
  predicate ScreenWritesDefined(json: Option<Json>) {
    json.Some? && TilesetSize(Tilesets(json)).Success? ==>
      LayersFit(Layers(json), BufferLength(Height(json), Width(json)))
  }

  /** ParseNSCRJson on a parsed tree, as a value. */
  function DecodeNscr(json: Option<Json>): Result<ScreenTable>
    requires ScreenWritesDefined(json)
  {
    if json.None? then Failure(ParseError)
    else match TilesetSize(Tilesets(json))
      case Failure(e) => Failure(e)
      case Success(size) =>
        Success(ScreenTable(Height(json), Width(json), WriteLayers(BlankBuffer(json), Layers(json), size)))
  }

  /** The decoder fails exactly on an unparsable file or a bad tileset
      table, and then with the matching diagnostic; otherwise the buffer has
      `height * width` words and the dimensions read. */
  lemma NscrOutcome(json: Option<Json>)
    requires ScreenWritesDefined(json)
    ensures DecodeNscr(json).Failure? <==> json.None? || TilesetSize(Tilesets(json)).Failure?
    ensures json.None? ==> DecodeNscr(json) == Failure(ParseError)
    ensures json.Some? && DecodeNscr(json).Failure? ==> DecodeNscr(json).error == WrongTilesetIndex
    ensures DecodeNscr(json).Success? ==>
              var t := DecodeNscr(json).value;
              t.height == Height(json) && t.width == Width(json) &&
              |t.data| == BufferLength(Height(json), Width(json))
  {
  }

  /** A decoded word is the word of the last layer writing it, or 0 when
      none does. */
  lemma NscrWordAt(json: Option<Json>, p: nat)
    requires ScreenWritesDefined(json) && DecodeNscr(json).Success?
    requires p < BufferLength(Height(json), Width(json))
    ensures var data := DecodeNscr(json).value.data;
            var layers := Layers(json);
            var size := TilesetSize(Tilesets(json)).value;
            (forall l :: 0 <= l < |layers| ==> !Writes(layers[l], p)) ==> data[p] == BLANK_WORD
    ensures var data := DecodeNscr(json).value.data;
            var layers := Layers(json);
            var size := TilesetSize(Tilesets(json)).value;
            forall l :: 0 <= l < |layers| && Writes(layers[l], p) &&
                         (forall m :: l < m < |layers| ==> !Writes(layers[m], p)) ==>
                           data[p] == TileWord(RawTile(LayerTiles(layers[l])[p]), size).value
  {
    var layers := Layers(json);
    var size := TilesetSize(Tilesets(json)).value;
    if forall l :: 0 <= l < |layers| ==> !Writes(layers[l], p) {
      ScreenUntouched(BlankBuffer(json), layers, size, p);
    }
    forall l | 0 <= l < |layers| && Writes(layers[l], p) &&
               (forall m :: l < m < |layers| ==> !Writes(layers[m], p))
    {
      ScreenTopmost(BlankBuffer(json), layers, size, p, l);
    }
  }

  /** The tile index (bits 0-9) and the palette (bits 12-15) of a word. */
  function WordIndex(w: bv16): int {
    (w & 0x3FF) as int
  }

  function WordPalette(w: bv16): int {
    (w >> 12) as int
  }

  /** A word a tileset of `tilesetSize` tiles can produce without flip
      bits: clear bits 10-11 and an index inside the tileset. */
  predicate WordFits(w: bv16, tilesetSize: Int32) {
    w & 0xC00 == 0 && WordIndex(w) < tilesetSize
  }

  /** A word is the index and the palette it is read as. */
  lemma WordParts(w: bv16)
    ensures 0 <= WordIndex(w) < 0x400 && 0 <= WordPalette(w) < 0x10
    ensures w & 0xC00 == 0 ==> (WordIndex(w) as bv16) | ((WordPalette(w) as bv16) << 12) == w
  {
    WordRanges(w);
    WordRebuild(w, WordIndex(w) as bv16, WordPalette(w) as bv16);
  }

  lemma WordRanges(w: bv16)
    ensures 0 <= WordIndex(w) < 0x400 && 0 <= WordPalette(w) < 0x10
  {
    WordSplit(w);
    IndexBelow(w & 0x3FF);
    PaletteBelow(w >> 12);
  }

  lemma WordRebuild(w: bv16, index: bv16, palette: bv16)
    requires index == (WordIndex(w) as bv16) && palette == (WordPalette(w) as bv16)
    ensures w & 0xC00 == 0 ==> index | (palette << 12) == w
  {
    WordBack(w & 0x3FF);
    WordBack(w >> 12);
    WordSplit(w);
  }

  lemma IndexBelow(x: bv16)
    requires x <= 0x3FF
    ensures x as int < 0x400
  {
  }

  lemma PaletteBelow(x: bv16)
    requires x <= 0xF
    ensures x as int < 0x10
  {
  }

  lemma WordBack(x: bv16)
    ensures (x as int) as bv16 == x
  {
  }

  lemma WordSplit(w: bv16)
    ensures w & 0x3FF <= 0x3FF && w >> 12 <= 0xF
    ensures w & 0xC00 == 0 ==> (w & 0x3FF) | ((w >> 12) << 12) == w
  {
  }

  /** The tile value written for a word: one more than `palette * size +
      index`, as a tileset of `tilesetSize` tiles numbers it. */
  function EncodeTile(w: bv16, tilesetSize: Int32): Json
    requires 0 <= tilesetSize <= 0x400
  {
    WordParts(w);
    MulBelow(WordPalette(w), tilesetSize);
    JNum(WordPalette(w) * tilesetSize + WordIndex(w) + 1)
  }

  /** The screens the encoder below can write: a buffer of `height*width`
      words, each one a tileset of `tilesetSize` tiles (from 2 to 2^10)
      produces. */
  predicate NscrEncodable(t: ScreenTable, tilesetSize: Int32) {
    2 <= tilesetSize <= 0x400 && |t.data| == BufferLength(t.height, t.width) &&
    forall p :: 0 <= p < |t.data| ==> WordFits(t.data[p], tilesetSize)
  }

  /** The tree a screen is written as: its dimensions, two tilesets whose
      second `firstgid` gives the tileset size, and one layer that holds
      every word as a tile value. */
  function EncodeNscr(t: ScreenTable, tilesetSize: Int32): Json
    requires 2 <= tilesetSize <= 0x400
  {
    JObj([("height", JNum(t.height)), ("width", JNum(t.width)),
          ("tilesets", JArr([JObj([("firstgid", JNum(1))]), JObj([("firstgid", JNum(tilesetSize + 1))])])),
          ("layers", JArr([JObj([("data", JArr(seq(|t.data|, p requires 0 <= p < |t.data| =>
                                                     EncodeTile(t.data[p], tilesetSize))))])]))])
  }

  /** A screen survives being written and decoded: its dimensions and
      every word of its buffer. */
  lemma NscrRoundTrip(t: ScreenTable, tilesetSize: Int32)
    requires NscrEncodable(t, tilesetSize)
    ensures ScreenWritesDefined(Some(EncodeNscr(t, tilesetSize)))
    ensures DecodeNscr(Some(EncodeNscr(t, tilesetSize))) == Success(t)
  {
    var json := Some(EncodeNscr(t, tilesetSize));
    NscrMembers(t, tilesetSize);
    var layers := Layers(json);
    var tiles := LayerTiles(layers[0]);
    forall p | 0 <= p < |t.data|
      ensures TileWord(RawTile(tiles[p]), tilesetSize) == Some(t.data[p])
    {
      EncodeTileInverse(t.data[p], tilesetSize);
    }
    OneLayerWords(BlankBuffer(json), layers, tilesetSize, t.data);
  }

  /** The tile value written for a word decodes back to that word. */
  lemma EncodeTileInverse(w: bv16, tilesetSize: Int32)
    requires 2 <= tilesetSize <= 0x400 && WordFits(w, tilesetSize)
    ensures TileWord(RawTile(EncodeTile(w, tilesetSize)), tilesetSize) == Some(w)
  {
    WordParts(w);
    TileWordInverse(WordIndex(w), WordPalette(w), tilesetSize);
  }

  /** A single layer as long as the buffer, whose every entry decodes to
      the word at its position, fits the buffer and leaves exactly those
      words. */
  lemma OneLayerWords(buf: seq<bv16>, layers: seq<Json>, tilesetSize: Int32, words: seq<bv16>)
    requires |layers| == 1 && |LayerTiles(layers[0])| == |buf| == |words|
    requires forall p :: 0 <= p < |words| ==> TileWord(RawTile(LayerTiles(layers[0])[p]), tilesetSize) == Some(words[p])
    ensures LayersFit(layers, |buf|)
    ensures WriteLayers(buf, layers, tilesetSize) == words
  {
    assert TilesFit(LayerTiles(layers[0]), |buf|);
    forall p | 0 <= p < |words|
      ensures WriteLayers(buf, layers, tilesetSize)[p] == words[p]
    {
      ScreenLastWrites(buf, layers, tilesetSize, p);
    }
  }

  /** What the decoder reads from an encoded screen. */
  lemma NscrMembers(t: ScreenTable, tilesetSize: Int32)
    requires 2 <= tilesetSize <= 0x400
    ensures var json := Some(EncodeNscr(t, tilesetSize));
            Height(json) == t.height && Width(json) == t.width &&
            TilesetSize(Tilesets(json)) == Success(tilesetSize) &&
            |Layers(json)| == 1 && LayerTiles(Layers(json)[0]) == EncodeNscr(t, tilesetSize).members[3].1.items[0].members[0].1.items
  {
    var ms := EncodeNscr(t, tilesetSize).members;
    LookupMember(ms, "height", 0);
    LookupMember(ms, "width", 1);
    LookupMember(ms, "tilesets", 2);
    LookupMember(ms, "layers", 3);
    var second := ms[2].1.items[1];
    LookupMember(second.members, "firstgid", 0);
    assert FirstGid(Tilesets(Some(EncodeNscr(t, tilesetSize)))) == tilesetSize + 1;
    var layer := ms[3].1.items[0];
    LookupMember(layer.members, "data", 0);
  }

  /** `struct JsonToScreenOptions` as the decoder fills it. */
  class JsonToScreenOptions {
    var height: Int32
    var width: Int32
    var data: array<bv16>

    constructor (height: Int32, width: Int32, data: array<bv16>)
      ensures this.height == height && this.width == width && this.data == data
    {
      this.height, this.width, this.data := height, width, data;
    }

    /** The record's contents as a value. */
    ghost function Value(): ScreenTable
      reads this, data
    {
      ScreenTable(height, width, data[..])
    }
  }

  /** ParseNSCRJson on a parsed tree: the record it returns, or the fatal
      diagnostic that ends the run. */
  method ParseNscrJson(json: Option<Json>) returns (r: Result<JsonToScreenOptions>)
    requires ScreenWritesDefined(json)
    ensures r.Failure? ==> DecodeNscr(json) == Failure(r.error)
    ensures r.Success? ==> fresh(r.value) && fresh(r.value.data) && DecodeNscr(json) == Success(r.value.Value())
  {
    if json.None? {
      return Failure(ParseError);
    }
    var height := GetInt(Lookup(json, "height"));
    var width := GetInt(Lookup(json, "width"));
    var data := new bv16[BufferLength(height, width)](_ => BLANK_WORD);
    assert data[..] == BlankBuffer(json);
    var layers := Children(Lookup(json, "layers"));
    var tilesetSize := ReadTilesetSize(Lookup(json, "tilesets"));
    if tilesetSize.Failure? {
      return Failure(tilesetSize.error);
    }
    WriteScreen(data, layers, tilesetSize.value);
    var options := new JsonToScreenOptions(height, width, data);
    return Success(options);
  }

  /** json.c:190-200: the tileset size check. */
  method ReadTilesetSize(tilesets: Option<Json>) returns (r: Result<Int32>)
    ensures r == TilesetSize(tilesets)
  {
    var tilesetSize := 0;
    if ArraySize(tilesets) != 1 {
      var tileset := ArrayItem(tilesets, 1);
      var firstGid := Lookup(tileset, "firstgid");
      tilesetSize := Wrap32(GetInt(firstGid) - 1);
      if tilesetSize <= 1 {
        return Failure(WrongTilesetIndex);
      }
    }
    return Success(tilesetSize);
  }

  /** json.c:202-226: the layers in order, each written from word 0.
      `palette` is the variable C keeps across tiles and layers: it is only
      assigned when a correction applies, so without one it stays 0. */
  method WriteScreen(data: array<bv16>, layers: seq<Json>, tilesetSize: Int32)
    requires LayersFit(layers, data.Length)
    modifies data
    ensures data[..] == WriteLayers(old(data[..]), layers, tilesetSize)
  {
    ghost var before := data[..];
    var palette := 0;
    var l := 0;
    while l < |layers|
      invariant 0 <= l <= |layers|
      invariant data[..] == WriteLayers(before, layers[..l], tilesetSize)
      invariant tilesetSize == 0 ==> palette == 0
    {
      WriteLayersStep(before, layers, tilesetSize, l);
      palette := WriteLayer(data, LayerTiles(layers[l]), tilesetSize, palette);
      l := l + 1;
    }
    assert layers[..l] == layers;
  }

  lemma WriteLayersStep(buf: seq<bv16>, layers: seq<Json>, tilesetSize: Int32, l: nat)
    requires l < |layers|
    ensures WriteLayers(buf, layers[..l+1], tilesetSize) ==
            WriteTiles(WriteLayers(buf, layers[..l], tilesetSize), LayerTiles(layers[l]), tilesetSize)
  {
    assert layers[..l+1][..l] == layers[..l];
  }

  /** The inner loop over one layer's tiles. */
  method WriteLayer(data: array<bv16>, tiles: seq<Json>, tilesetSize: Int32, palette0: int)
    returns (palette: int)
    requires TilesFit(tiles, data.Length)
    requires tilesetSize == 0 ==> palette0 == 0
    modifies data
    ensures data[..] == WriteTiles(old(data[..]), tiles, tilesetSize)
    ensures tilesetSize == 0 ==> palette == 0
  {
    ghost var before := data[..];
    palette := palette0;
    var i := 0;
    while i < |tiles|
      invariant 0 <= i <= |tiles|
      invariant data[..] == WriteTiles(before, tiles[..i], tilesetSize)
      invariant tilesetSize == 0 ==> palette == 0
    {
      WriteTilesStep(before, tiles, tilesetSize, i);
      var word;
      word, palette := PackTileValue(GetInt(Some(tiles[i])), tilesetSize, palette);
      if word.Some? {
        data[i] := word.value;
      }
      i := i + 1;
    }
    assert tiles[..i] == tiles;
  }

  lemma WriteTilesStep(buf: seq<bv16>, tiles: seq<Json>, tilesetSize: Int32, i: nat)
    requires TilesFit(tiles, |buf|) && i < |tiles|
    ensures var done := WriteTiles(buf, tiles[..i], tilesetSize);
            var raw := RawTile(tiles[i]);
            WriteTiles(buf, tiles[..i+1], tilesetSize) ==
              if raw == 0 then done else done[i := TileWord(raw, tilesetSize).value]
  {
    assert forall p :: 0 <= p < i ==> tiles[..i][p] == tiles[p];
    assert forall p :: 0 <= p <= i ==> tiles[..i+1][p] == tiles[p];
    assert tiles[..i+1][..i] == tiles[..i];
  }

  /** The body of the inner loop for one tile value: the word it stores
      (none for the empty tile) and the new value of C's `palette`. */
  method PackTileValue(raw: Int32, tilesetSize: Int32, palette0: int) returns (word: Option<bv16>, palette: int)
    requires tilesetSize == 0 ==> palette0 == 0
    ensures word == TileWord(raw, tilesetSize)
    ensures tilesetSize == 0 ==> palette == 0
  {
    palette := palette0;
    var tileInt := Wrap32(raw - 1);
    if tileInt == -1 {
      return None, palette;
    }
    if tilesetSize != 0 {
      palette := CDiv(tileInt, tilesetSize);
      tileInt := CRem(tileInt, tilesetSize);
    }
    word := Some(PackTile(Bits32(tileInt), Bits32(palette)));
  }
}

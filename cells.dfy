/** The cell-table decoder ParseNCERJson (json.c:34-163): header scalars, the
    optional label table, and a count-checked table of cells, each with an
    optional bounding box and the three OAM attribute groups of a hardware
    sprite descriptor. */
module Cells {
  import opened Outcomes
  import opened MachineInt
  import opened CJson
  import opened Scalars
  import opened CountedFill
  import opened Labels

  datatype Attr0 = Attr0(yCoordinate: Int32, rotation: bool, sizeDisable: bool, mode: Int32,
                         mosaic: bool, colours: Int32, shape: Int32)
  datatype Attr1 = Attr1(xCoordinate: Int32, rotationScaling: Int32, size: Int32)
  datatype Attr2 = Attr2(charName: Int32, priority: Int32, palette: Int32)
  datatype Oam = Oam(attr0: Attr0, attr1: Attr1, attr2: Attr2)

  /** One cell; `readOnly` and the bounding box are C `short`s. */
  datatype Cell = Cell(readOnly: Int16, maxX: Int16, maxY: Int16, minX: Int16, minY: Int16, oam: Oam)

  /** The decoded cell table, the fields of `struct JsonToCellOptions`. */
  datatype CellTable = CellTable(labelEnabled: bool, extended: bool, imageHeight: Int32, imageWidth: Int32,
                                 cellCount: Int32, mappingType: Int32, cells: seq<Cell>,
                                 labelCount: Int32, labels: seq<string>)

  /** What an allocated cell holds before the decoder writes to it. */
  const BLANK_CELL: Cell :=
    Cell(0, 0, 0, 0, 0, Oam(Attr0(0, false, false, 0, false, 0, 0), Attr1(0, 0, 0), Attr2(0, 0, 0)))

  /** The two cells have the same bounding box. */
  predicate SameBounds(c: Cell, d: Cell) {
    c.maxX == d.maxX && c.maxY == d.maxY && c.minX == d.minX && c.minY == d.minY
  }

  function DecodeAttr0(node: Option<Json>): Attr0 {
    Attr0(GetInt(Lookup(node, "YCoordinate")), GetBool(Lookup(node, "Rotation")),
          GetBool(Lookup(node, "SizeDisable")), GetInt(Lookup(node, "Mode")),
          GetBool(Lookup(node, "Mosaic")), GetInt(Lookup(node, "Colours")), GetInt(Lookup(node, "Shape")))
  }

  function DecodeAttr1(node: Option<Json>): Attr1 {
    Attr1(GetInt(Lookup(node, "XCoordinate")), GetInt(Lookup(node, "RotationScaling")),
          GetInt(Lookup(node, "Size")))
  }

  function DecodeAttr2(node: Option<Json>): Attr2 {
    Attr2(GetInt(Lookup(node, "CharName")), GetInt(Lookup(node, "Priority")), GetInt(Lookup(node, "Palette")))
  }

  function DecodeOam(node: Option<Json>): Oam {
    Oam(DecodeAttr0(Lookup(node, "Attr0")), DecodeAttr1(Lookup(node, "Attr1")), DecodeAttr2(Lookup(node, "Attr2")))
  }

  /** The cell that entry `entry` of `cells` leaves behind when written over
      `cell`: `readOnly` narrowed to a short, the bounding box (narrowed) only
      in extended mode, the OAM groups always. */
  function DecodeCell(cell: Cell, entry: Json, extended: bool): (r: Cell)
    ensures r.readOnly == ToShort(GetInt(Lookup(Some(entry), "readOnly")))
    ensures extended ==> r.maxX == ToShort(GetInt(Lookup(Some(entry), "maxX"))) &&
                         r.maxY == ToShort(GetInt(Lookup(Some(entry), "maxY"))) &&
                         r.minX == ToShort(GetInt(Lookup(Some(entry), "minX"))) &&
                         r.minY == ToShort(GetInt(Lookup(Some(entry), "minY")))
    ensures !extended ==> SameBounds(r, cell)
    ensures r.oam == DecodeOam(Lookup(Some(entry), "OAM"))
  {
    var bounds :=
      if extended then
        cell.(maxX := ToShort(GetInt(Lookup(Some(entry), "maxX"))),
              maxY := ToShort(GetInt(Lookup(Some(entry), "maxY"))),
              minX := ToShort(GetInt(Lookup(Some(entry), "minX"))),
              minY := ToShort(GetInt(Lookup(Some(entry), "minY"))))
      else cell;
    bounds.(readOnly := ToShort(GetInt(Lookup(Some(entry), "readOnly"))),
            oam := DecodeOam(Lookup(Some(entry), "OAM")))
  }

  /** The fill step of the cell table. */
  function CellFill(extended: bool): (Cell, Json) -> Result<Cell> {
    (c: Cell, e: Json) => Success(DecodeCell(c, e, extended))
  }

  function CellCount(json: Option<Json>): Int32 {
    GetInt(Lookup(json, "cellCount"))
  }

  function Extended(json: Option<Json>): bool {
    GetBool(Lookup(json, "extended"))
  }

  function CellEntries(json: Option<Json>): seq<Json> {
    Children(Lookup(json, "cells"))
  }

  /** The cell table as allocated: `cellCount` blank cells. */
  function BlankCells(json: Option<Json>): seq<Cell> {
    seq(AllocLength(CellCount(json)), _ => BLANK_CELL)
  }

  /** The record as json.c:41-87 leaves it: the header scalars, the label
      table when labels are enabled, and `cellCount` blank cells. */
  function NcerHeader(json: Option<Json>): CellTable
    requires LabelsDefined(json)
  {
    var labelEnabled := LabelEnabled(json);
    CellTable(labelEnabled, Extended(json), GetInt(Lookup(json, "imageHeight")), GetInt(Lookup(json, "imageWidth")),
              CellCount(json), GetInt(Lookup(json, "mappingType")), BlankCells(json),
              if labelEnabled then LabelCount(json) else 0,
              if labelEnabled then DecodeLabels(json) else [])
  }

  /** What ParseNCERJson makes of a parsed tree (`None`: the reader failed):
      the header record with the fill pass of `cells` over its cell table. */
  function DecodeNcer(json: Option<Json>): Result<CellTable>
    requires LabelsDefined(json)
  {
    if json.None? then Failure(ParseError)
    else
      var header := NcerHeader(json);
      match FillChecked(header.cells, CellEntries(json), CellFill(header.extended), CellCountIncorrect)
      case Failure(e) => Failure(e)
      case Success(cells) => Success(header.(cells := cells))
  }

  lemma CellFillTotal(extended: bool)
    ensures forall c: Cell, e: Json :: CellFill(extended)(c, e).Success?
  {
  }

  /** The decode is fatal exactly when the reader failed or `cells` has more
      entries than `cellCount`; a shorter list is not an error. */
  lemma NcerFatal(json: Option<Json>)
    requires LabelsDefined(json)
    ensures DecodeNcer(json).Failure? <==> json.None? || |CellEntries(json)| > AllocLength(CellCount(json))
    ensures DecodeNcer(json).Failure? && json.Some? ==> DecodeNcer(json).error == CellCountIncorrect
  {
    CellFillTotal(Extended(json));
    FillCheckedOverflow(BlankCells(json), CellEntries(json), CellFill(Extended(json)), CellCountIncorrect);
  }

  /** Cell k holds the fields of the k-th entry of `cells`; a cell past the
      last entry keeps its allocated value. */
  lemma NcerCellAt(json: Option<Json>, k: nat)
    requires LabelsDefined(json) && DecodeNcer(json).Success?
    requires k < AllocLength(CellCount(json))
    ensures |DecodeNcer(json).value.cells| == AllocLength(CellCount(json))
    ensures k < |CellEntries(json)| ==>
              DecodeNcer(json).value.cells[k] == DecodeCell(BLANK_CELL, CellEntries(json)[k], Extended(json))
    ensures k >= |CellEntries(json)| ==> DecodeNcer(json).value.cells[k] == BLANK_CELL
  {
    FillCheckedAt(BlankCells(json), CellEntries(json), CellFill(Extended(json)), CellCountIncorrect, k);
  }

  /** Without extended mode no cell's bounding box is written by the decode. */
  lemma NcerBoundsOnlyWhenExtended(json: Option<Json>, k: nat)
    requires LabelsDefined(json) && DecodeNcer(json).Success? && !Extended(json)
    requires k < |DecodeNcer(json).value.cells|
    ensures SameBounds(DecodeNcer(json).value.cells[k], BLANK_CELL)
  {
    FillCheckedAt(BlankCells(json), CellEntries(json), CellFill(Extended(json)), CellCountIncorrect, k);
  }

  /** The record holds the label table of the file exactly when labels
      are enabled; otherwise no label is recorded. */
  lemma NcerLabels(json: Option<Json>)
    requires LabelsDefined(json) && DecodeNcer(json).Success?
    ensures var t := DecodeNcer(json).value;
            t.labelEnabled == LabelEnabled(json) &&
            (t.labelEnabled ==> t.labelCount == LabelCount(json) && t.labels == DecodeLabels(json)) &&
            (!t.labelEnabled ==> t.labelCount == 0 && t.labels == [])
  {
  }

  /** The tree a cell is written as: `readOnly`, its bounding box and the
      three attribute groups under `OAM`. */
  function EncodeCell(c: Cell): Json {
    JObj([("readOnly", JNum(c.readOnly)), ("maxX", JNum(c.maxX)), ("maxY", JNum(c.maxY)),
          ("minX", JNum(c.minX)), ("minY", JNum(c.minY)), ("OAM", EncodeOam(c.oam))])
  }

  function EncodeOam(oam: Oam): Json {
    JObj([("Attr0", EncodeAttr0(oam.attr0)), ("Attr1", EncodeAttr1(oam.attr1)), ("Attr2", EncodeAttr2(oam.attr2))])
  }

  function EncodeAttr0(a: Attr0): Json {
    JObj([("YCoordinate", JNum(a.yCoordinate)), ("Rotation", JBool(a.rotation)),
          ("SizeDisable", JBool(a.sizeDisable)), ("Mode", JNum(a.mode)), ("Mosaic", JBool(a.mosaic)),
          ("Colours", JNum(a.colours)), ("Shape", JNum(a.shape))])
  }

  function EncodeAttr1(a: Attr1): Json {
    JObj([("XCoordinate", JNum(a.xCoordinate)), ("RotationScaling", JNum(a.rotationScaling)), ("Size", JNum(a.size))])
  }

  function EncodeAttr2(a: Attr2): Json {
    JObj([("CharName", JNum(a.charName)), ("Priority", JNum(a.priority)), ("Palette", JNum(a.palette))])
  }

  /** A cell survives being written and decoded: every field fits its C
      type, so no narrowing changes it. Outside extended mode the bounding
      box is the one the slot already held. */
  lemma CellRoundTrip(slot: Cell, c: Cell, extended: bool)
    ensures DecodeCell(slot, EncodeCell(c), extended) ==
              if extended then c else c.(maxX := slot.maxX, maxY := slot.maxY, minX := slot.minX, minY := slot.minY)
  {
    CellLookups(EncodeCell(c).members);
    OamRoundTrip(c.oam);
  }

  /** The attribute groups survive being written and decoded. */
  lemma OamRoundTrip(oam: Oam)
    ensures DecodeOam(Some(EncodeOam(oam))) == oam
  {
    OamLookups(EncodeOam(oam).members);
    Attr0RoundTrip(oam.attr0);
    Attr1RoundTrip(oam.attr1);
    Attr2RoundTrip(oam.attr2);
  }

  lemma Attr0RoundTrip(a: Attr0)
    ensures DecodeAttr0(Some(EncodeAttr0(a))) == a
  {
    Attr0Lookups(EncodeAttr0(a).members);
  }

  lemma Attr1RoundTrip(a: Attr1)
    ensures DecodeAttr1(Some(EncodeAttr1(a))) == a
  {
    TripleLookups(EncodeAttr1(a).members, "XCoordinate", "RotationScaling", "Size");
  }

  lemma Attr2RoundTrip(a: Attr2)
    ensures DecodeAttr2(Some(EncodeAttr2(a))) == a
  {
    TripleLookups(EncodeAttr2(a).members, "CharName", "Priority", "Palette");
  }

  lemma CellLookups(ms: seq<(string, Json)>)
    requires |ms| == 6 && ms[0].0 == "readOnly" && ms[1].0 == "maxX" && ms[2].0 == "maxY"
    requires ms[3].0 == "minX" && ms[4].0 == "minY" && ms[5].0 == "OAM"
    ensures forall k :: 0 <= k < 6 ==> Lookup(Some(JObj(ms)), ms[k].0) == Some(ms[k].1)
  {
    LookupMember(ms, "readOnly", 0);
    LookupMember(ms, "maxX", 1);
    LookupMember(ms, "maxY", 2);
    LookupMember(ms, "minX", 3);
    LookupMember(ms, "minY", 4);
    LookupMember(ms, "OAM", 5);
  }

  lemma OamLookups(ms: seq<(string, Json)>)
    requires |ms| == 3 && ms[0].0 == "Attr0" && ms[1].0 == "Attr1" && ms[2].0 == "Attr2"
    ensures forall k :: 0 <= k < 3 ==> Lookup(Some(JObj(ms)), ms[k].0) == Some(ms[k].1)
  {
    LookupMember(ms, "Attr0", 0);
    LookupMember(ms, "Attr1", 1);
    LookupMember(ms, "Attr2", 2);
  }

  lemma Attr0Lookups(ms: seq<(string, Json)>)
    requires |ms| == 7 && ms[0].0 == "YCoordinate" && ms[1].0 == "Rotation" && ms[2].0 == "SizeDisable"
    requires ms[3].0 == "Mode" && ms[4].0 == "Mosaic" && ms[5].0 == "Colours" && ms[6].0 == "Shape"
    ensures forall k :: 0 <= k < 7 ==> Lookup(Some(JObj(ms)), ms[k].0) == Some(ms[k].1)
  {
    LookupMember(ms, "YCoordinate", 0);
    LookupMember(ms, "Rotation", 1);
    LookupMember(ms, "SizeDisable", 2);
    LookupMember(ms, "Mode", 3);
    LookupMember(ms, "Mosaic", 4);
    LookupMember(ms, "Colours", 5);
    LookupMember(ms, "Shape", 6);
  }

  lemma TripleLookups(ms: seq<(string, Json)>, a: string, b: string, c: string)
    requires |ms| == 3 && ms[0].0 == a && ms[1].0 == b && ms[2].0 == c && a != b && a != c && b != c
    ensures forall k :: 0 <= k < 3 ==> Lookup(Some(JObj(ms)), ms[k].0) == Some(ms[k].1)
  {
    LookupMember(ms, a, 0);
    LookupMember(ms, b, 1);
    LookupMember(ms, c, 2);
  }

  /** A cell table the decoder can produce: `cellCount` cells, the label
      fields as the decoder leaves them, and outside extended mode every
      bounding box still the allocated one. */
  predicate NcerEncodable(t: CellTable) {
    |t.cells| == AllocLength(t.cellCount) &&
    LabelsFill(t.labelEnabled, t.labelCount, t.labels) &&
    (!t.extended ==> forall k :: 0 <= k < |t.cells| ==> SameBounds(t.cells[k], BLANK_CELL))
  }

  /** The tree a cell table is written as: the header scalars, the label
      table and the cells, under the names the decoder reads. */
  function EncodeNcer(t: CellTable): Json {
    JObj([("labelEnabled", JBool(t.labelEnabled)), ("extended", JBool(t.extended)),
          ("imageHeight", JNum(t.imageHeight)), ("imageWidth", JNum(t.imageWidth)),
          ("cellCount", JNum(t.cellCount)), ("mappingType", JNum(t.mappingType)),
          ("labelCount", JNum(t.labelCount)), ("labels", EncodeLabels(t.labels)),
          ("cells", JArr(seq(|t.cells|, k requires 0 <= k < |t.cells| => EncodeCell(t.cells[k]))))])
  }

  /** A whole cell table survives being written and decoded: the header
      scalars, the label table and every cell. */
  lemma NcerRoundTrip(t: CellTable)
    requires NcerEncodable(t)
    ensures LabelsDefined(Some(EncodeNcer(t)))
    ensures DecodeNcer(Some(EncodeNcer(t))) == Success(t)
  {
    var json := Some(EncodeNcer(t));
    NcerMembers(t);
    if t.labelEnabled {
      LabelsRoundTrip(json, t.labels);
    }
    var header := NcerHeader(json);
    assert header == t.(cells := BlankCells(json));
    var entries := CellEntries(json);
    forall k | 0 <= k < |entries|
      ensures CellFill(t.extended)(BlankCells(json)[k], entries[k]) == Success(t.cells[k])
    {
      CellRoundTrip(BLANK_CELL, t.cells[k], t.extended);
    }
    FillCheckedExact(BlankCells(json), entries, CellFill(t.extended), CellCountIncorrect, t.cells);
  }

  /** What the decoder reads from an encoded cell table. */
  lemma NcerMembers(t: CellTable)
    ensures var json := Some(EncodeNcer(t));
            LabelEnabled(json) == t.labelEnabled && Extended(json) == t.extended &&
            GetInt(Lookup(json, "imageHeight")) == t.imageHeight &&
            GetInt(Lookup(json, "imageWidth")) == t.imageWidth &&
            CellCount(json) == t.cellCount && GetInt(Lookup(json, "mappingType")) == t.mappingType &&
            LabelCount(json) == t.labelCount && LabelEntries(json) == EncodeLabels(t.labels).items &&
            CellEntries(json) == EncodeNcer(t).members[8].1.items
  {
    NcerLookups(EncodeNcer(t).members);
  }

  lemma NcerLookups(ms: seq<(string, Json)>)
    requires |ms| == 9 && ms[0].0 == "labelEnabled" && ms[1].0 == "extended" && ms[2].0 == "imageHeight"
    requires ms[3].0 == "imageWidth" && ms[4].0 == "cellCount" && ms[5].0 == "mappingType"
    requires ms[6].0 == "labelCount" && ms[7].0 == "labels" && ms[8].0 == "cells"
    ensures Lookup(Some(JObj(ms)), "labelEnabled") == Some(ms[0].1) && Lookup(Some(JObj(ms)), "extended") == Some(ms[1].1)
    ensures Lookup(Some(JObj(ms)), "imageHeight") == Some(ms[2].1) && Lookup(Some(JObj(ms)), "imageWidth") == Some(ms[3].1)
    ensures Lookup(Some(JObj(ms)), "cellCount") == Some(ms[4].1) && Lookup(Some(JObj(ms)), "mappingType") == Some(ms[5].1)
    ensures Lookup(Some(JObj(ms)), "labelCount") == Some(ms[6].1) && Lookup(Some(JObj(ms)), "labels") == Some(ms[7].1)
    ensures Lookup(Some(JObj(ms)), "cells") == Some(ms[8].1)
  {
    LookupMember(ms, "labelEnabled", 0);
    LookupMember(ms, "extended", 1);
    LookupMember(ms, "imageHeight", 2);
    LookupMember(ms, "imageWidth", 3);
    LookupMember(ms, "cellCount", 4);
    LookupMember(ms, "mappingType", 5);
    LookupMember(ms, "labelCount", 6);
    LookupMember(ms, "labels", 7);
    LookupMember(ms, "cells", 8);
  }

  /** `struct JsonToCellOptions` as the decoder fills it. */
  class JsonToCellOptions {
    var labelEnabled: bool
    var extended: bool
    var imageHeight: Int32
    var imageWidth: Int32
    var cellCount: Int32
    var mappingType: Int32
    var cells: array<Cell>
    var labelCount: Int32
    var labels: array<string>

    /** The record with its header fields and its tables. */
    constructor (labelEnabled: bool, extended: bool, imageHeight: Int32, imageWidth: Int32, cellCount: Int32,
                 mappingType: Int32, cells: array<Cell>, labelCount: Int32, labels: array<string>)
      ensures this.labelEnabled == labelEnabled && this.extended == extended
      ensures this.imageHeight == imageHeight && this.imageWidth == imageWidth
      ensures this.cellCount == cellCount && this.mappingType == mappingType
      ensures this.cells == cells && this.labelCount == labelCount && this.labels == labels
    {
      this.labelEnabled, this.extended := labelEnabled, extended;
      this.imageHeight, this.imageWidth := imageHeight, imageWidth;
      this.cellCount, this.mappingType := cellCount, mappingType;
      this.cells, this.labelCount, this.labels := cells, labelCount, labels;
    }

    /** The record's contents as a value. */
    ghost function Value(): CellTable
      reads this, cells, labels
    {
      CellTable(labelEnabled, extended, imageHeight, imageWidth, cellCount, mappingType, cells[..],
                labelCount, labels[..])
    }
  }

  /** ParseNCERJson on a parsed tree: the record it returns, or the fatal
      diagnostic that ends the run. */
  method ParseNcerJson(json: Option<Json>) returns (r: Result<JsonToCellOptions>)
    requires LabelsDefined(json)
    ensures r.Failure? ==> DecodeNcer(json) == Failure(r.error)
    ensures r.Success? ==> fresh(r.value) && fresh(r.value.cells) && fresh(r.value.labels) &&
                           DecodeNcer(json) == Success(r.value.Value())
  {
    if json.None? {
      return Failure(ParseError);
    }
    var options := ReadCellHeader(json);
    var status := FillCells(options.cells, options.cellCount, options.extended, Children(Lookup(json, "cells")));
    if status.Failure? {
      return Failure(status.error);
    }
    return Success(options);
  }

  /** json.c:41-87: the record is allocated, the header scalars are read,
      the label table is read when enabled, and `cellCount` cells are
      allocated. */
  method ReadCellHeader(json: Option<Json>) returns (options: JsonToCellOptions)
    requires LabelsDefined(json)
    ensures fresh(options) && fresh(options.cells) && fresh(options.labels)
    ensures options.Value() == NcerHeader(json)
    ensures options.cells.Length == AllocLength(options.cellCount)
  {
    var labelEnabled := GetBool(Lookup(json, "labelEnabled"));
    var extended := GetBool(Lookup(json, "extended"));
    var imageHeight := GetInt(Lookup(json, "imageHeight"));
    var imageWidth := GetInt(Lookup(json, "imageWidth"));
    var cellCount := GetInt(Lookup(json, "cellCount"));
    var mappingType := GetInt(Lookup(json, "mappingType"));
    var cells := new Cell[AllocLength(cellCount)](_ => BLANK_CELL);
    var labelCount, labels := 0, new string[0];
    if labelEnabled {
      labelCount, labels := ReadLabels(json);
    }
    options := new JsonToCellOptions(labelEnabled, extended, imageHeight, imageWidth, cellCount, mappingType,
                                     cells, labelCount, labels);
    assert options.cells[..] == BlankCells(json);
  }

  /** The fill pass of ParseNCERJson (json.c:89-158) over the allocated
      table `cells`: one cell per entry, fatal at the entry whose index
      reaches `cellCount`. */
  method FillCells(cells: array<Cell>, cellCount: Int32, extended: bool, entries: seq<Json>)
    returns (status: Result<()>)
    requires cells.Length == AllocLength(cellCount)
    modifies cells
    ensures FillChecked(old(cells[..]), entries, CellFill(extended), CellCountIncorrect)
            == (if status.Success? then Success(cells[..]) else Failure(status.error))
  {
    ghost var blank := cells[..];
    var i := 0;
    while i < |entries|
      invariant 0 <= i <= |entries|
      invariant FillChecked(blank, entries[..i], CellFill(extended), CellCountIncorrect) == Success(cells[..])
    {
      FillCheckedStep(blank, entries, CellFill(extended), CellCountIncorrect, i, cells[..]);
      if i > cellCount - 1 {
        CellFillTotal(extended);
        FillCheckedOverflow(blank, entries, CellFill(extended), CellCountIncorrect);
        return Failure(CellCountIncorrect);
      }
      cells[i] := DecodeCell(cells[i], entries[i], extended);
      i := i + 1;
    }
    assert entries[..i] == entries;
    return Success(());
  }
}

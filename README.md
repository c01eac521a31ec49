# nitrogfx JSON decoders, modelled in Dafny

This project models `json.c` of nitrogfx, the part of the tool that turns a
parsed JSON description into the in-memory records that are later written out
as Nintendo DS graphics resources. It has three decoders and three scalar
helpers:

- **GetBool, GetInt and GetString** coerce a tree node to a boolean, an `int`
  or a string. An absent or wrong-kind node gives `false`, `0` or NULL.
- **ParseNCERJson** builds a cell table. It reads the header scalars, then the
  optional label table, then allocates `cellCount` cells and fills them in
  order from `cells`. An entry past `cellCount` is fatal. Each cell gets
  `readOnly`, a bounding box (only in extended mode) and the three OAM
  attribute groups. `readOnly` and the box are narrowed to `short`.
- **ParseNSCRJson** builds a screen. It derives a tileset size from the second
  tileset's `firstgid`. It then packs every non-empty tile of every layer into
  a 16-bit word of a `height*width` buffer. The word holds the index, the flip
  bits and the palette. Each layer starts again at word 0.
- **ParseNANRJson** builds an animation:
  - a count-checked sequence table, where each sequence owns a count-checked
    frame list;
  - a count-checked result table, whose payload is chosen by `resultType`;
  - the same optional label table.

The parsed tree is a Dafny datatype, `CJson.Json`. An absent node (C's NULL)
is `None`. Member lookup is case-sensitive and returns the first match.
Iterating an absent or scalar node visits nothing. A fatal diagnostic
(`FATAL_ERROR`) is the `Failure` arm of `Outcomes.Result`, with one `Fatal`
value per message.

The project has these modules:

- `Outcomes`: result and option types.
- `MachineInt`: C's 32-bit wrap, `(short)` narrowing, truncating `/` and `%`,
  and the 32-bit pattern of an `int`.
- `CJson`: the tree and its navigation.
- `Scalars`: the three extractors.
- `CountedFill`: the count-checked fill pass that the cell, sequence, frame and
  result tables all use.
- `Labels`: the label table.
- `Cells`, `Screen`, `Animation`: the three decoders.

Each decoder has two forms:

- a **value specification**: `DecodeNcer`, `DecodeNscr` and `DecodeNanr`, with
  lemmas about them;
- an **imperative method**: `ParseNcerJson`, `ParseNscrJson` and
  `ParseNanrJson`. Each allocates arrays, fills them in loops as the C does, and
  returns an options object (a class). Its postcondition says that the object's
  contents equal the value specification, or that the method failed with the
  specification's diagnostic.

Three points of the screen decoder are easy to misread. The model follows
the code on each of them:

- The destination index `i` restarts at 0 for every layer (json.c:206), so
  layers overlay each other rather than being concatenated.
- The flip bits are read from bits 30 and 31 of the value after the tileset
  modulo, not from the decremented raw value (json.c:212-220). With a tileset
  correction of at most 2^30 and a tile value of at least 1 the remainder is
  below 2^30, so neither flag is raised (`Screen.TileWordCorrectedNoFlip`,
  `Screen.TileWordFlipLostExample`). A negative remainder, as from a negative
  tile value, still raises both (`Screen.TileWordNegativeExample`).
- The corrected index is not masked to 10 bits before the final `& 0xFFFF`
  (json.c:217-222).

## Model

| member | source | states |
|---|---|---|
| Scalars.GetBool | json.c:10-16 | true exactly for a present boolean node holding true; false for an absent, non-boolean or false node |
| Scalars.GetInt | json.c:18-24 | the number a present number node carries, 0 for an absent or non-number node |
| Scalars.GetString | json.c:26-32 | the text of a present string node, absent (NULL) for every other node |
| CJson.Lookup | json.c:49-54 | case-sensitive member lookup; no contract of its own, characterised by `LookupFirstMatch` and `LookupMember` |
| CJson.LookupFirstMatch | json.c:49-54 | a lookup finds a value exactly when the node is an object with a member of that name, and the value found is that of the first such member |
| CJson.LookupMember | json.c:98-111 | the member at position k is what a lookup finds when no earlier member has its name |
| CJson.Children | json.c:93 | iteration visits an array's items or an object's member values, in order, and nothing for an absent or scalar node |
| CJson.ArraySize | json.c:193 | the number of children an iteration visits, 0 for an absent or scalar node; no contract of its own, characterised by `ArrayItem` |
| CJson.ArrayItem | json.c:194-195 | the child at an index exists exactly when the index is below the array size, and is that child |
| MachineInt.Wrap32 | json.c:197 | the 32-bit two's-complement result of an `int` computation: congruent to the exact value modulo 2^32, and equal to it when in range |
| MachineInt.ToShort | json.c:100 | `(short)` narrowing: congruent modulo 2^16 and the identity on values a short holds |
| MachineInt.CDiv | json.c:214 | C's truncating `/`; no contract of its own, characterised together with `%` by `CRem` and `CDivRemNonNegative` |
| MachineInt.CRem | json.c:215 | C's `%`: quotient times divisor plus remainder is the dividend, the remainder is smaller than the divisor in magnitude, and it has the dividend's sign |
| MachineInt.CDivRemNonNegative | json.c:214-215 | for a non-negative dividend and a positive divisor, C's `/` and `%` agree with the mathematical quotient and remainder |
| MachineInt.Bits32 | json.c:217-222 | the 32-bit pattern C's bitwise operators see for an `int`, its value modulo 2^32; no contract of its own, characterised by `Bits32InRange` |
| MachineInt.Bits32InRange | json.c:217-222 | an `int` from 0 to 2^32-1 keeps its value as a 32-bit pattern |
| CountedFill.FillChecked | json.c:93-96 | a successful count-checked pass leaves a table of exactly the allocated length |
| CountedFill.AllocLength | json.c:63 | the slot count of each `malloc(sizeof(T) * count)` (json.c:63, 69, 254, 283, 317): the count itself, and 0 for a negative count, a choice every count check relies on; no contract of its own, characterised by `FillCheckedSuccess` and `FillCheckedOverflow` |
| CountedFill.FillCheckedAt | json.c:93-158 | after a successful pass there are no more entries than slots; slot k holds the fill of entry k over its allocated value; slots after the last entry keep their allocated value |
| CountedFill.FillCheckedSuccess | json.c:95-96 | a pass succeeds exactly when there are at most as many entries as slots and every entry's fill succeeds |
| CountedFill.FillCheckedOverflow | json.c:95-96 | when every fill succeeds, a pass fails exactly when there are more entries than slots, with the table's overflow diagnostic |
| CountedFill.FillCheckedFailsAt | json.c:266-269 | a failing pass reports its first offending entry: the overflow diagnostic at the first index past the slots, or the fill's own error |
| CountedFill.FillCheckedAbort | json.c:268-269 | a failure on a prefix of the entries is the result of the whole pass (the first fatal error ends the run) |
| CountedFill.FillCheckedExact | json.c:93-158 | entries that exactly fill the table, each filling to a given value, produce exactly those values |
| Labels.CopyLabels | json.c:74-81 | the label slots after the copy: slot j holds the j-th string for every entry, and the later slots are unchanged |
| Labels.DecodeLabels | json.c:65-82 | the label table; no contract of its own, characterised by `LabelsInOrder` and `LabelsRoundTrip` |
| Labels.LabelsInOrder | json.c:65-82 | the label table has `labelCount` slots holding the strings of `labels` in order, with blank slots after them |
| Labels.LabelsRoundTrip | json.c:65-82 | a label list that fills `labelCount`, written as an array of strings, meets the decoder's requirement and is read back as itself |
| Labels.ReadLabels | json.c:65-82 | the loop reads `labelCount` and leaves a fresh array equal to the label table |
| Cells.DecodeAttr0 | json.c:116-133 | Attr0's seven fields; no contract of its own, characterised by `Attr0RoundTrip` |
| Cells.DecodeAttr1 | json.c:135-144 | Attr1's three fields; no contract of its own, characterised by `Attr1RoundTrip` |
| Cells.DecodeAttr2 | json.c:146-155 | Attr2's three fields; no contract of its own, characterised by `Attr2RoundTrip` |
| Cells.DecodeOam | json.c:113-155 | the three attribute groups under `OAM`; no contract of its own, characterised by `OamRoundTrip` |
| Cells.DecodeCell | json.c:98-155 | `readOnly` is narrowed to a short; in extended mode the four bounds are the narrowed entry values; outside it the cell's bounds are unchanged; the OAM groups are decoded from `OAM` |
| Cells.NcerHeader | json.c:49-87 | the record before the cell loop; no contract of its own, computed by `ReadCellHeader` and characterised by `NcerCellAt` and `NcerRoundTrip` |
| Cells.DecodeNcer | json.c:34-163 | the whole decoder as a value; no contract of its own, characterised by `NcerFatal`, `NcerCellAt`, `NcerBoundsOnlyWhenExtended` and `NcerRoundTrip` |
| Cells.NcerFatal | json.c:43-47 | decoding fails exactly on an unparsable file or more `cells` entries than `cellCount`, the latter with "Cell count is incorrect."; fewer entries is not an error |
| Cells.NcerCellAt | json.c:84-157 | the table has `cellCount` cells; cell k is the decoding of entry k over an allocated cell, and the cells after the last entry keep their allocated value |
| Cells.NcerBoundsOnlyWhenExtended | json.c:101-112 | without extended mode no cell's bounding box is written |
| Cells.NcerLabels | json.c:65-82 | the record holds the label table of the file and its `labelCount` exactly when labels are enabled, and no labels otherwise |
| Cells.CellRoundTrip | json.c:98-155 | a cell written as a tree with the keys the decoder reads decodes back to itself (narrowing changes nothing), keeping the slot's box outside extended mode |
| Cells.OamRoundTrip | json.c:114-155 | the three attribute groups decode back to themselves |
| Cells.Attr0RoundTrip | json.c:117-133 | Attr0's seven fields decode back to themselves |
| Cells.Attr1RoundTrip | json.c:136-144 | Attr1's three fields decode back to themselves |
| Cells.Attr2RoundTrip | json.c:147-155 | Attr2's three fields decode back to themselves |
| Cells.NcerRoundTrip | json.c:34-163 | a whole cell table whose cell list fills `cellCount`, whose label list fills `labelCount` when enabled, and whose boxes are blank outside extended mode, written as a tree, decodes back to itself: header scalars, labels and every cell |
| Cells.JsonToCellOptions.constructor | json.c:41 | the record holds the given header fields and tables |
| Cells.ParseNcerJson | json.c:34-163 | the imperative decoder returns a fresh record equal to `DecodeNcer`, or fails with its diagnostic |
| Cells.ReadCellHeader | json.c:41-87 | the header record: the scalars, the label table when enabled, and `cellCount` allocated cells |
| Cells.FillCells | json.c:89-158 | the cell loop computes the count-checked pass over the allocated cells, in place |
| Screen.BufferLength | json.c:186 | the number of words allocated, `height*width`; no contract of its own, characterised by `NscrOutcome` |
| Screen.TilesetSize | json.c:190-200 | a failure is the tileset diagnostic; size 0 exactly when there is one tileset; any other accepted size is at least 2 |
| Screen.TilesetSizeCases | json.c:190-200 | no tileset, or a second `firstgid` from INT_MIN+1 to 2, is fatal; a larger `firstgid` gives a size one less; `firstgid` INT_MIN wraps `firstgid - 1` to the largest `int`, which is accepted as the size |
| Screen.ReadTilesetSize | json.c:190-200 | the imperative check computes `TilesetSize` |
| Screen.PackTile | json.c:217-222 | the packing of index, flip flags and palette into the stored word; no contract of its own, characterised by `PackTileLayout`, `PackNoFlip` and the examples |
| Screen.TileWord | json.c:209-223 | a word is produced exactly for a non-zero tile value (0 is the empty tile that is skipped) |
| Screen.TileWordSplit | json.c:211-216 | for a tile value v ≥ 1, the packed index and palette are the remainder and quotient of v-1 by the tileset size (v-1 and 0 without a correction) |
| Screen.PackTileLayout | json.c:217-222 | an index below 2^10 and a palette below 2^4 are packed as index in the low bits and palette shifted by 12, with no flip bit |
| Screen.PackSmall | json.c:217-222 | the same on 32-bit patterns |
| Screen.TileWordInverse | json.c:209-222 | for a size from 2 to 2^10, an index below it and a palette below 2^4, the tile value `palette*size + index + 1` decodes to the word holding `index` in bits 0-9 and `palette` in bits 12-15, with clear flip bits |
| Screen.DivModUnique | json.c:214-215 | Euclidean `/` and `%` by a positive divisor recover the quotient and remainder a value was built from |
| Screen.WordParts | json.c:217-222 | a word's index (bits 0-9) is below 2^10, its palette (bits 12-15) below 2^4, and a word with clear flip bits is rebuilt from the two |
| Screen.EncodeTileInverse | json.c:209-222 | the tile value written for a word that fits the tileset decodes back to that word |
| Screen.WordFields | json.c:217-222 | such a word reads back as index in bits 0-9, clear bits 10-11 and palette in bits 12-15 |
| Screen.TileWordExamples | json.c:209-222 | one tileset, value 1 gives word 0; size 10, value 21 gives tile 0 of palette 2, word 0x2000 |
| Screen.TileWordFlipExample | json.c:217-220 | without a correction bit 30 of the value sets the vertical flip bit 11: 0x40000001 gives 0x0800 |
| Screen.TileWordFlipLostExample | json.c:213-220 | with a correction the flags come from the remainder: size 10, value 0x40000001 gives 0x6004, no flip bit |
| Screen.TileWordCorrectedNoFlip | json.c:212-222 | with a correction from 2 to 2^30 and a tile value of at least 1, no flip flag is raised: the word is the low 16 bits of the remainder OR the quotient shifted by 12 |
| Screen.PackNoFlip | json.c:217-222 | an index with bits 30 and 31 clear is packed with no flip flag added |
| Screen.TileWordNegativeExample | json.c:209-222 | with a correction a negative remainder keeps its sign bits: size 10, value -1 gives 0xFFFE with both flip bits set |
| Screen.WriteTiles | json.c:204-225 | one layer's pass keeps the buffer's length; its words are stated by `WriteTilesAt` |
| Screen.WriteLayers | json.c:202-226 | the pass over all layers keeps the buffer's length; its words are stated by `ScreenTopmost` and `ScreenUntouched` |
| Screen.WriteTilesAt | json.c:206-224 | after one layer, word p holds the word of entry p when that entry is non-empty, and its old value otherwise |
| Screen.ScreenUntouched | json.c:210-224 | a word no layer writes keeps its initial value |
| Screen.ScreenTopmost | json.c:202-226 | a word holds the tile word of the last layer with a non-empty tile at that position |
| Screen.ScreenAbove | json.c:202-226 | layers from some index on that have no non-empty tile at a position leave that word as the layers below them left it |
| Screen.ScreenLastSkips | json.c:202-226 | a last layer with no non-empty tile at a position leaves that word as the layers below left it |
| Screen.ScreenLastWrites | json.c:202-226 | a last layer with a non-empty tile at a position sets that word to the tile's word |
| Screen.DecodeNscr | json.c:165-231 | the whole decoder as a value; no contract of its own, characterised by `NscrOutcome`, `NscrWordAt` and `NscrRoundTrip` |
| Screen.NscrOutcome | json.c:173-200 | decoding fails exactly on an unparsable file or a bad tileset table, with the matching diagnostic; otherwise the buffer has `height*width` words |
| Screen.NscrWordAt | json.c:186-226 | a decoded word is the last writing layer's tile word, or 0 when no layer writes it |
| Screen.NscrRoundTrip | json.c:165-231 | a screen whose buffer has `height*width` words, each with clear flip bits and an index inside a tileset of 2 to 2^10 tiles, written as one layer with a second `firstgid` of size+1, meets the write precondition and decodes back to its dimensions and every word |
| Screen.OneLayerWords | json.c:202-226 | a single layer as long as the buffer whose every entry decodes to a given word fits the buffer and leaves exactly those words |
| Screen.JsonToScreenOptions.constructor | json.c:172 | the record holds the given dimensions and buffer |
| Screen.ParseNscrJson | json.c:165-231 | the imperative decoder returns a fresh record equal to `DecodeNscr`, or fails with its diagnostic |
| Screen.WriteScreen | json.c:202-226 | the layer loop computes the overlay of all layers in place; `palette` stays 0 without a correction |
| Screen.WriteLayer | json.c:204-225 | one layer's inner loop, from word 0, computes that layer's pass in place |
| Screen.PackTileValue | json.c:209-223 | the loop body stores exactly the tile word, and leaves `palette` 0 without a correction |
| Animation.DecodeFrame | json.c:299-303 | a frame holds its entry's `frameDelay` and `resultId` |
| Animation.DecodeSequence | json.c:271-307 | one sequence; no contract of its own, characterised by `SequenceFrames` and `SequenceRoundTrip` |
| Animation.SequenceFrames | json.c:283-307 | a sequence fails exactly when its frame list is longer than its `frameCount`, with "Sequence frame count is incorrect."; otherwise it has `frameCount` frames, holding the entries in order, blank after them |
| Animation.DecodeResult | json.c:333-371 | the record's discriminant is `resultType`; type 0 holds only `index`, type 1 the six SRT fields, type 2 `index` and the two positions, and any other type only its discriminant |
| Animation.DecodeSequences | json.c:254-309 | the sequence table; no contract of its own, characterised by `NanrSequenceFatal` and `NanrEntryAt` |
| Animation.DecodeResults | json.c:313-374 | the result table; no contract of its own, characterised by `NanrOutcome` and `NanrEntryAt` |
| Animation.DecodeNanr | json.c:233-401 | the whole decoder as a value; no contract of its own, characterised by `NanrOutcome`, `NanrEntryAt`, `NanrLabels` and `NanrRoundTrip` |
| Animation.NanrSequenceFatal | json.c:266-297 | the sequence pass stops at its first offending entry: "Sequence count is incorrect." past `sequenceCount`, "Sequence frame count is incorrect." for a sequence whose frames overflow |
| Animation.NanrOutcome | json.c:243-331 | decoding fails exactly on an unparsable file, a failing sequence pass or more results than `resultCount`, the latter with the result table's diagnostic (which the code words "Frame count is incorrect.") |
| Animation.NanrEntryAt | json.c:262-374 | the tables have `sequenceCount` and `resultCount` slots; slot k is the decoding of entry k, and the slots after the last entry are blank |
| Animation.NanrLabels | json.c:376-396 | the label table and its `labelCount` are present only when enabled, and are then those of the file; otherwise no labels |
| Animation.FrameRoundTrip | json.c:299-303 | a frame written as a tree decodes back to itself |
| Animation.ResultRoundTrip | json.c:333-371 | a result whose arm matches its discriminant, written as a tree, decodes back to itself |
| Animation.SequenceRoundTrip | json.c:271-307 | a sequence whose frames fill its `frameCount` exactly, written as a tree, decodes back to itself |
| Animation.NanrRoundTrip | json.c:233-401 | a whole animation whose tables fill their counts, whose frame lists fill each `frameCount`, whose results match their discriminant and whose label list fills `labelCount` when enabled, written as a tree, meets the decoder's requirement and decodes back to itself |
| Animation.NanrSequencesRoundTrip | json.c:254-309 | the sequence table of such an encoded animation decodes back to its own |
| Animation.NanrResultsRoundTrip | json.c:313-374 | the result table of such an encoded animation decodes back to its own |
| Animation.JsonToAnimationOptions.constructor | json.c:240 | the record holds the given counts and tables |
| Animation.ParseNanrJson | json.c:233-401 | the imperative decoder returns a fresh record equal to `DecodeNanr`, or fails with its diagnostic |
| Animation.ReadSequenceTable | json.c:248-309 | reads `sequenceCount`, allocates the table and runs the sequence pass |
| Animation.ReadResultTable | json.c:313-374 | reads `resultCount`, allocates the table and runs the result pass |
| Animation.FillSequences | json.c:262-309 | the sequence loop computes the count-checked sequence pass in place |
| Animation.ReadSequence | json.c:271-307 | one sequence's scalars and frame list, or the frame-count diagnostic |
| Animation.ReadFrames | json.c:283-307 | the frame loop computes the count-checked frame pass over `frameCount` fresh slots |
| Animation.FillResults | json.c:324-374 | the result loop computes the count-checked result pass in place |
| Animation.ReadResult | json.c:333-371 | the switch on `resultType` yields the decoded result record |

## Left out

- File reading (`ReadWholeFile`) and the JSON reader (`cJSON_Parse`, `cJSON_GetErrorPtr`) are not modelled. The decoders take the parsed tree, and an unparsable file is the tree `None`.
- `FATAL_ERROR` is modelled only as a `Failure` result naming the diagnostic. Message formatting and process exit are not modelled.
- cJSON's conversion of a JSON number (a double) to `valueint` involves floating point. `JNum` carries the converted `int`.
- `malloc`, `strlen`, `strcpy` and the release routines `FreeNCERCell`, `FreeNSCRScreen` and `FreeNANRAnimation` (json.c:403-454) have no counterpart. The release routines only walk `cellCount`, `labelCount`, `sequenceCount`, each sequence's `frameCount` and `resultCount`.
- Uninitialised memory is not modelled. A freshly allocated slot holds a fixed blank value, which the decoders either overwrite or leave alone. The fill lemmas of `CountedFill` hold for any initial contents. A result slot's union storage is not modelled: each arm holds only its own fields.
- The options record of a decoder that fails is not modelled, since the run ends.
- When labels are disabled, the model records `labelCount` as 0 and `labels` as empty. The C leaves both unset.
- When a count guard computes `count - 1` for a count of INT_MIN, C overflows and skips the check. The model keeps the check.
- json.h is not part of this model. The record fields take the types the code assigns to them: `bool` for the values `GetBool` gives (`labelEnabled`, `extended`, `Rotation`, `SizeDisable`, `Mosaic`), strings for the labels, 16-bit words for the screen buffer, `short` where the code casts explicitly, and `int` for every other field. A narrower field type in the header would truncate further.
- `CountedFill.AllocLength`: a negative count gives a table of 0 slots, so every entry of its list overflows. C passes the negative count, converted to a huge `size_t`, to `malloc`.
- `Screen.BufferLength`: negative dimensions give an empty buffer. C computes the size in unsigned `size_t` arithmetic and passes a huge or wrapped size to `malloc`.
- Writes that C leaves undefined are preconditions rather than modelled behaviour:
  - a label list longer than `labelCount`, or a non-string label (`LabelsDefined`, `AnimationLabelsDefined`);
  - a screen write past `height*width` (`ScreenWritesDefined`). The value-level layer pass `Screen.WriteTiles` is total: such a write changes nothing there, and the decoder never reaches one.
- A sequence's frame list, and each cell, sequence and result record, is held by value in the table. C holds arrays of pointers to separately allocated records, and the model does not capture that aliasing.
- `Cells.FillCells` writes each cell as one value. C assigns its fields one at a time, but no field is read in between, so the resulting cell is the same.

/** Option, the fatal diagnostics of the decoders, and the Result that carries them. */
module Outcomes {

  /** An optional value; `None` stands for C's NULL pointer. */
  datatype Option<+T> = None | Some(value: T)

  /** The fatal diagnostics of json.c. Each one ends the whole run in the
      original; here it is a distinguished failure outcome. */
  datatype Fatal =
    | ParseError                  // the reader returned no tree ("Error in line ...")
    | CellCountIncorrect          // "Cell count is incorrect."
    | WrongTilesetIndex           // "Wrong tileset index (tileset 0 should be added first)"
    | SequenceCountIncorrect      // "Sequence count is incorrect."
    | SequenceFrameCountIncorrect // "Sequence frame count is incorrect."
    | ResultCountIncorrect        // the result table's check, reported as "Frame count is incorrect."

  /** Either a decoded value or the fatal diagnostic that stopped the decode. */
  datatype Result<+T> = Success(value: T) | Failure(error: Fatal)
}

/** What one replacement takes and gives (internal/edit). */
module EditTypes {
  import opened Outcomes
  import opened Text

  datatype Pair = Pair(oldText: Bytes, newText: Bytes, all: bool)

  /** Lines start to end, counted from 1; a range that holds no line ends just before it starts. */
  datatype LineRange = LineRange(start: int, end: int)

  datatype Replacement = Replacement(source: Bytes, note: Bytes, ranges: seq<LineRange>, added: nat, removed: nat,
                                     matches: nat)

  /** Panics is no error value of the source: there it panics. */
  datatype ReplaceError = NotFound | NotUnique(lines: seq<nat>) | EmptyOldString | NoChange | Panics

  type Replacer = (Bytes, Pair) -> Result<Replacement, ReplaceError>
}

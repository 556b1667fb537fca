/** Locations under the library's `data` directory. */
module Paths {

  /** A physical size in whole millimetres; the configuration form never accepts less than 10. */
  type Mm = x: int | 0 < x witness 10

  /** The directory `data/<game>/<folder>` of one card type. */
  datatype FolderId = FolderId(game: string, folder: string)

  /** The file `data/<game>/<folder>/<file>`. */
  datatype FilePath = FilePath(game: string, folder: string, file: string)
  {
    function Dir(): FolderId { FolderId(game, folder) }
  }
}

# Boardgame-Print, modelled in Dafny

Boardgame-Print digitises the cards of a board game and prints them as a
duplex (recto-verso) PDF. This project models its core:

- **Corner ordering** (`Corners`). `ordonner_points` takes the points of a
  contour and returns four of them: top-left, top-right, bottom-right and
  bottom-left. It picks the first point with the least and the greatest
  x + y, and the first point with the least and the greatest y − x.
- **Card extraction** (`Extraction`). `detourer_carte_precise` is modelled
  on the contours that the thresholded photo yields. It fails with no
  contour, or when the largest contour has fewer than four points.
  Otherwise it rectifies that contour to `L_mm·ppi × H_mm·ppi` pixels with
  a 3 mm corner radius.
- **The stand-alone detection script** (`DetectScript`). It uses the same
  pipeline with fixed constants, and it lacks the four-point check.
- **The imposition engine** (`Imposition`, `ImpositionFacts`). The class
  `PdfGenerator` lays one group of same-size cards out on A4 pages with a
  10 mm margin. Cards sit in a centred grid. Each batch gets a front page
  and then a back page mirrored left-to-right, so that backs line up with
  fronts when the sheet is printed duplex. A page is modelled as the list
  of images and cut frames drawn on it.
- **The card library** (`Library`). The class `GameManager` keeps games,
  their card-type configurations, the `.png` files in each type folder,
  and each folder's `cards.json` quantities. The filesystem is modelled as
  maps held in the object's fields, and every operation states its whole
  new state and the message it returns.
- **The print run** (`PrintRun`). The export loop expands each selected
  deck into one entry per printed copy. It groups the entries by card size
  in first-seen order, then adds one section per group to a fresh
  `PdfGenerator`.

Shared pieces:

- `Names` holds the name sanitiser, the code-point order on strings, and
  the `*.png` selection.
- `Decimal` holds decimal rendering and zero padding.
- `Paths` holds folder and file identities.
- `Wrappers` holds `Option`.

Two details of the code that the model follows:

- The difference that orders corners is `np.diff(pts, axis=1)`, which is
  y − x for each point, as the comment at src/utils.py:13 says.
- The automatic card name counts every `*.png` in the folder, `back.png`
  included.

## Model

| member | source | states |
|---|---|---|
| Corners.ArgMin | src/utils.py:10 | the index returned holds the least key, and no earlier index holds that value (first occurrence, as `np.argmin`) |
| Corners.ArgMax | src/utils.py:11 | the index returned holds the greatest key, and no earlier index holds that value (first occurrence, as `np.argmax`) |
| Corners.OrderPoints | src/utils.py:4-18 | four corners, each of which is a point of the input |
| Corners.OrderPointsExtremes | src/utils.py:8-16 | corner 0 has the least x + y and corner 2 the greatest; corner 1 has the least y − x and corner 3 the greatest |
| Corners.TopLeftCorner | src/utils.py:10 | for points inside a box that include its top-left corner, that corner is the one with the least x + y |
| Corners.TopRightCorner | src/utils.py:15 | for points inside a box that include its top-right corner, that corner is the one with the least y − x |
| Corners.BottomRightCorner | src/utils.py:11 | for points inside a box that include its bottom-right corner, that corner is the one with the greatest x + y |
| Corners.BottomLeftCorner | src/utils.py:16 | for points inside a box that include its bottom-left corner, that corner is the one with the greatest y − x |
| Corners.BoxContourOrdered | src/utils.py:4-18 | a contour inside a box that passes through the box's four corners is ordered exactly TL, TR, BR, BL |
| Corners.FourCornersAnyOrder | src/utils.py:4-18 | the four corners of a non-degenerate rectangle, given in any order, come back in canonical order |
| Extraction.Area2 | src/utils.py:48 | the contour area measure is never negative |
| Extraction.Largest | src/utils.py:48 | the chosen index is a valid contour index |
| Extraction.LargestIsFirstMaximal | src/utils.py:48 | the chosen contour has an area no other exceeds, and every earlier contour has a strictly smaller area (`max` keeps the first maximum) |
| Extraction.Detect | src/utils.py:18-89 | success holds exactly when an image is returned |
| Extraction.NoContourFails | src/utils.py:43-45 | with no contour the result is (None, False, "Aucun contour détecté.") |
| Extraction.DetectOutcome | src/utils.py:47-89 | success holds iff the largest contour has at least 4 points; otherwise the "contour trop petit" failure; on success the rectification of that contour at `L_mm·ppi × H_mm·ppi` |
| Extraction.AcceptGeometry | src/utils.py:57-89 | an accepted card has the target size, source corners = ordered contour corners, destination corners (0,0),(w−1,0),(w−1,h−1),(0,h−1), radius 3·ppi, and the message names the size |
| Extraction.TargetIsCanonical | src/utils.py:57-66 | the destination corners are already in the order `ordonner_points` produces, so the warp maps each corner to its counterpart |
| Extraction.MaskLayout | src/utils.py:69-83 | the four disc centres are exactly the points inset by the radius from the card's corners; the two mask rectangles are the card cut back by the radius on opposite sides |
| Extraction.MessageNamesSize | src/utils.py:89 | the success message holds the decimal width, then 'x', then the decimal height, so both can be read back from it |
| DetectScript.RunScript | detect_card.py:25-92 | the script produces a card iff the image loaded and some contour was found |
| DetectScript.ScriptTarget | detect_card.py:33-36 | the script's card is 600 × 1130 pixels with a 30-pixel radius and destination corners (0,0)…(599,1129) |
| DetectScript.ScriptCorners | detect_card.py:9-23 | the script's corners come from the largest contour and are the extremes of x + y and y − x over it |
| DetectScript.ShortContourDiffers | detect_card.py:51-56 | for a one-point contour the script still rectifies (all four corners equal), while the application reports "contour trop petit" |
| Decimal.Digits | src/game_manager.py:111 | the decimal rendering is non-empty and all digits |
| Decimal.ValueOfDigits | src/game_manager.py:111 | reading back the decimal rendering of n gives n |
| Decimal.NoLeadingZero | src/game_manager.py:111 | the rendering starts with '0' only for n = 0 |
| Decimal.ZeroPad | src/game_manager.py:111 | the padded text is max(width, length) long, ends with the input and is '0' before it |
| Decimal.PaddedValue | src/game_manager.py:111 | zero padding keeps the value and reaches at least the width |
| Names.KeepAllowed | src/game_manager.py:21 | the filter keeps only alphanumerics, space, '-' and '_' |
| Names.SanitizeIsClean | src/game_manager.py:21 | a sanitised name holds only allowed characters, has no leading or trailing space, and is the filtered name with surrounding spaces removed |
| Names.SanitizeIdempotent | src/game_manager.py:56 | sanitising twice is sanitising once |
| Names.CleanIsFixed | src/game_manager.py:113 | a clean name is left unchanged by sanitising |
| Names.LessIrreflexive | src/game_manager.py:138 | the string order used by `sorted` is irreflexive |
| Names.LessTransitive | src/game_manager.py:138 | the string order is transitive |
| Names.LessTotal | src/game_manager.py:138 | any two distinct strings are ordered one way or the other |
| Names.LeastExists | src/game_manager.py:138 | every non-empty set of names has a least element |
| Names.SortedStep | src/game_manager.py:138 | the sorted listing of a set is its least element followed by the sorted rest |
| Names.SortedIsOrdered | src/game_manager.py:138 | the sorted listing holds each member of the set exactly once, in strictly increasing order |
| Names.Pngs | src/game_manager.py:110 | a name is selected by `*.png` iff it is in the folder and ends in ".png" |
| Names.Stem | src/game_manager.py:146 | for "x.png" the stem is "x" |
| Imposition.PdfGenerator.constructor | src/pdf_generator.py:6-11 | margin 10, page 210 × 297 mm, no pages yet |
| Imposition.PdfGenerator.AddPage | src/pdf_generator.py:51 | one blank page of the given side is appended |
| Imposition.PdfGenerator.Image | src/pdf_generator.py:66 | the picture is drawn on the last page and nothing else changes |
| Imposition.PdfGenerator.Rect | src/pdf_generator.py:72 | the frame is drawn on the last page and nothing else changes |
| Imposition.PdfGenerator.AddFronts | src/pdf_generator.py:51-72 | one front page is appended holding, per card in order, its picture (present and loadable) and frame (present) at its grid cell |
| Imposition.PdfGenerator.AddBacks | src/pdf_generator.py:75-97 | one back page is appended holding, per card, its back picture (given, present, loadable) and always a frame, at the mirrored cell |
| Imposition.PdfGenerator.AddDeckSection | src/pdf_generator.py:13-97 | the pages appended are exactly the section for these cards on this sheet |
| Imposition.PdfGenerator.DrawFront | src/pdf_generator.py:56-72 | one card's front marks (picture if present and loadable, frame if present, at its cell) are appended to the last page |
| Imposition.PdfGenerator.DrawBack | src/pdf_generator.py:77-97 | one card's back marks (back picture if given, present and loadable, then a frame, at the mirrored cell) are appended to the last page |
| Imposition.ExtendNothing | src/pdf_generator.py:56-72 | extending the last page with no mark leaves the pages as they were |
| Imposition.DrawExtends | src/pdf_generator.py:66-72 | drawing one more mark extends the last page's marks by that mark and changes no other page |
| Imposition.ExtendOnLast | src/pdf_generator.py:51-72 | marks drawn after a new page land on that page, after the earlier pages |
| Imposition.MarksStep | src/pdf_generator.py:56-72 | one more card adds exactly that card's marks at the end of the page |
| ImpositionFacts.FloorDiv | src/pdf_generator.py:29-30 | the column count is the largest whole number of cards that fits the usable width |
| ImpositionFacts.GridCentred | src/pdf_generator.py:26-42 | the grid holds as many whole cards as fit in each direction, and is centred with equal space on both sides, at least the margin |
| ImpositionFacts.FitsIff | src/pdf_generator.py:32-34 | a group is laid out iff its card fits within the margins in both directions |
| ImpositionFacts.CellsDistinct | src/pdf_generator.py:57-58 | the cards of one page occupy distinct cells of the grid |
| ImpositionFacts.RowIsQuotient | src/pdf_generator.py:57 | within a page the `% rows` changes nothing: the row is index div cols |
| ImpositionFacts.MirrorInvolution | src/pdf_generator.py:83 | the back column is a column, mirroring twice restores it, and distinct columns mirror to distinct ones |
| ImpositionFacts.DuplexAligned | src/pdf_generator.py:83-85 | a card's back sits at the horizontal reflection of its front about the sheet's centre line |
| ImpositionFacts.CellPlaced | src/pdf_generator.py:60-61 | every grid cell lies within the margins |
| ImpositionFacts.CellMarksPlaced | src/pdf_generator.py:60-72 | every mark of one card is card-sized and within the margins |
| ImpositionFacts.MarksPlaced | src/pdf_generator.py:56-97 | every mark of a page is card-sized and within the margins |
| ImpositionFacts.PairsPlaced | src/pdf_generator.py:47-97 | every mark of every page pair is card-sized and within the margins |
| ImpositionFacts.SectionPlaced | src/pdf_generator.py:13-97 | every mark of a section has the first card's size and lies within the margins |
| ImpositionFacts.PairsLength | src/pdf_generator.py:47-75 | i pairs make 2i pages |
| ImpositionFacts.PairsLast | src/pdf_generator.py:47-75 | pair i appends the front and then the back of batch i − 1 |
| ImpositionFacts.PairsKeep | src/pdf_generator.py:47-75 | a later pair does not change the pages of the earlier ones |
| ImpositionFacts.PairsNewest | src/pdf_generator.py:47-75 | the last pair's two pages are the front and the back of the last batch |
| ImpositionFacts.PairsEarlier | src/pdf_generator.py:47-75 | a page of an earlier pair keeps its side and batch when one more pair is added |
| ImpositionFacts.PairsAt | src/pdf_generator.py:47-75 | page 2j is the front of batch j and page 2j + 1 its back |
| ImpositionFacts.Halving | src/pdf_generator.py:47-75 | page p is the front or the back of batch p div 2 as p is even or odd |
| ImpositionFacts.PairsShape | src/pdf_generator.py:47-75 | i pairs make 2i pages, alternating front and back, page p showing batch p div 2 |
| ImpositionFacts.SectionPages | src/pdf_generator.py:44-75 | a laid-out section has 2·ceil(n/k) pages, fronts at even positions, backs at odd ones, page p showing batch p div 2 |
| ImpositionFacts.SectionEmptyIff | src/pdf_generator.py:18-34 | a section adds no page iff there are no cards or the first card does not fit |
| ImpositionFacts.BatchesPrefix | src/pdf_generator.py:47-48 | the first i batches concatenate to the first min(i·k, n) cards |
| ImpositionFacts.CeilBounds | src/pdf_generator.py:45 | ceil(n/k) pairs are enough for n cards, and one fewer is not |
| ImpositionFacts.BatchesPartition | src/pdf_generator.py:44-48 | the batches concatenate to the whole list in order, and each holds between 1 and k cards |
| ImpositionFacts.CountsAppend | src/pdf_generator.py:56-72 | frames and pictures count additively over concatenation |
| ImpositionFacts.FrontCounts | src/pdf_generator.py:63-72 | a front page has one frame per card whose front file exists and one picture per such card that also loads |
| ImpositionFacts.BackCounts | src/pdf_generator.py:88-97 | a back page has one frame per card, and one picture per card whose back is given, exists and loads |
| ImpositionFacts.TenCards | src/pdf_generator.py:26-48 | ten 63 × 88 mm cards on A4 make a 3 × 3 grid, 4 pages, a second batch of the tenth card alone, at x = 10.5, y = 16.5 and mirrored x = 136.5 |
| Library.FileName | src/game_manager.py:113-114 | a card's file name ends in ".png" |
| Library.EntriesSnoc | src/game_manager.py:138-150 | one more file name appends its card, or nothing for "back.png" |
| Library.ListingFacts | src/game_manager.py:129-151 | every listed card is a .png file of the folder other than back.png, with path, stem and count from the metadata; every such file is listed; the listing is sorted by file name |
| Library.ListedOnce | src/game_manager.py:138 | no file is listed twice |
| Library.ListedIff | src/game_manager.py:138-150 | a card is listed iff its file is a .png of the folder other than back.png and its entry is built from that file |
| Library.SavedCardListed | src/game_manager.py:101-127 | after a save to any file other than back.png the card is listed with its stored count, and no other card's listing changes |
| Library.SavedBackCardHidden | src/game_manager.py:113-118 | a card whose name sanitises to "back" is written as back.png, and no card with that file is listed afterwards |
| Library.BackNameKept | src/game_manager.py:113-114 | the name "back" is kept as it is and becomes the file back.png |
| Library.DeletedCardUnlisted | src/game_manager.py:153-167 | after a delete exactly the deleted file disappears from the listing |
| Library.ListedNameFindsFile | src/game_manager.py:146-156 | apart from a file named ".png", a listed name plus ".png" is an existing file, so deleting or updating by it finds the card |
| Library.EmptyNameLost | src/game_manager.py:113-114 | any name that sanitises to "" is stored as ".png", listed under the name ".png", and that name does not lead back to the file |
| Library.AutoNameShape | src/game_manager.py:108-111 | below 999 files the automatic name is `carte_` plus the three-digit count + 1, and sanitising leaves it unchanged |
| Library.SortedNext | src/game_manager.py:138 | taking the least remaining name extends the sorted prefix by one, keeping the rest sorted after it |
| Library.ListFolder | src/game_manager.py:135-151 | the loop produces exactly the sorted listing of the folder |
| Library.GameManager.constructor | src/game_manager.py:10-13 | the manager starts from a consistent library state |
| Library.GameManager.BackImagePath | src/game_manager.py:250-255 | the back image path is returned iff back.png exists in that folder |
| Library.GameManager.CreateGame | src/game_manager.py:19-35 | invalid name, existing game, creation error, or success with a new game folder and an empty configuration; each with its message |
| Library.GameManager.AddCardType | src/game_manager.py:51-76 | existing type, folder error, or success registering name, size and sanitised folder and creating the folder; each with its message |
| Library.GameManager.SaveCard | src/game_manager.py:101-127 | missing folder, write error, or success storing the sanitised (or automatic) file with its count; each with its message |
| Library.GameManager.GetCardsByType | src/game_manager.py:129-151 | the cards returned are the folder's sorted listing (empty when the folder is absent) |
| Library.GameManager.DeleteCard | src/game_manager.py:153-170 | missing file, delete error, or success removing the file and its metadata entry |
| Library.GameManager.UpdateCard | src/game_manager.py:172-235 | missing card, missing target, name taken, move error, or success moving the file and carrying its count (updated if asked) |
| Library.GameManager.CarryMetadata | src/game_manager.py:202-233 | the metadata becomes that of the model's metadata update (old entry removed on a move or rename, new one carrying the old or new count), and nothing else changes |
| Library.GameManager.SaveBackImage | src/game_manager.py:237-248 | missing folder, write error, or success writing back.png |
| Library.UpdateKeepsMetadata | src/game_manager.py:202-233 | after an update the new entry carries the old count or the new one; on a rename or move the old entry is gone; every other entry is unchanged |
| Library.MoveKeepsOthers | src/game_manager.py:193-200 | a move puts the new file in the target, removes the old one, and leaves every other file where it was |
| PrintRun.CopiesFacts | src/views/export.py:49-56 | a card with count n gives max(n, 0) identical copies |
| PrintRun.ExpandFacts | src/views/export.py:45-57 | a deck expands to as many entries as its counts add up to; each has the type's size and back, and the front of one of its cards |
| PrintRun.KeysDistinct | src/views/export.py:42-43 | each size gets one group |
| PrintRun.KeysCover | src/views/export.py:42-43 | the group keys are exactly the sizes of the selected types |
| PrintRun.GroupOfAbsent | src/views/export.py:43 | a size that no selected type has gets no cards |
| PrintRun.GroupSized | src/views/export.py:42-56 | every card in a group has that group's size |
| PrintRun.GroupedStep | src/views/export.py:36-57 | handling one more deck appends its cards to its size's group and changes no other group |
| PrintRun.GroupsPartitionTotal | src/views/export.py:32-61 | the groups' sizes add up to the total count: no card is lost or duplicated by grouping |
| PrintRun.RunsAt | src/views/export.py:36-57 | the run of selected type i is the expansion of its own listing and back image |
| PrintRun.RunsSnoc | src/views/export.py:36-57 | one more selected type appends its expansion and leaves the earlier runs unchanged |
| PrintRun.RunsSized | src/views/export.py:38-56 | every copy in a type's run has that type's size |
| PrintRun.RunsTotal | src/views/export.py:49-57 | the runs hold as many copies as the listings' quantities add up to |
| PrintRun.DeckRunsSnoc | src/views/export.py:36-57 | one more selected deck appends its current run from the library |
| PrintRun.DeckRunsSized | src/views/export.py:38-56 | each deck's cards carry the deck's size |
| PrintRun.ExportGroupsSized | src/views/export.py:42-61 | every section is handed cards of a single size, its key |
| PrintRun.TotalIsDemand | src/views/export.py:49-57 | the total counted is the sum of the stored quantities of the selected decks' cards |
| PrintRun.AppendCopies | src/views/export.py:48-57 | the loop appends exactly the expansion of the deck and counts it |
| PrintRun.AddType | src/views/export.py:36-57 | one deck's iteration adds its size to the order if new, appends its cards to that group and adds their number to the total |
| PrintRun.Collect | src/views/export.py:32-57 | the loop yields the sizes in first-seen order, the grouped entries and the total |
| PrintRun.SectionsStep | src/views/export.py:60-61 | one more group appends exactly its section's pages |
| PrintRun.Assemble | src/views/export.py:60-61 | the pages appended are the sections of the groups in first-seen order |
| PrintRun.Render | src/views/export.py:6-61 | no decks → warning; nothing selected → warning; otherwise a fresh A4 generator holding the groups' sections in order, and the total count |

## Left out

- Image processing is outside the model: grey conversion, blur,
  threshold, contour tracing, the perspective warp and mask drawing. The
  traced contours are an input, and the model keeps the integer geometry.
- `cv2.contourArea` is a floating-point area. The model uses twice the
  shoelace area on integer points, which orders contours the same way.
- Point coordinates are integers. The source casts the contour to
  `float32` (src/utils.py:57) and then computes `pts.sum` (src/utils.py:9)
  and `np.diff` (src/utils.py:14) in `float32`. Those sums and differences
  are exact, as the model takes them, only for coordinates below 2^24.
- The filesystem is modelled as maps held in `GameManager`'s fields. The
  real directories, `config.json` and `cards.json` are not modelled, nor
  their JSON encoding. A corrupt or missing `cards.json` reading as empty
  is covered, because a folder without metadata gives count 1.
- Exceptions are modelled only inside the `try` blocks. They are an input
  to the model: the exception text of the first step that fails. The model
  assumes a failing step has no partial effect. If `_save_config` or
  `_save_deck_metadata` raises after the folder or image was written, the
  source leaves that partial effect, which the model does not capture.
- Library.GameManager.AddCardType: `_load_config` for a game without a
  folder, and `_save_config` raising outside the `try`, are not modelled.
  The method requires that an unknown game come with a fault. That is what
  happens for any type name with a non-empty sanitised form, because
  `mkdir` fails when the game folder is missing. A type name that
  sanitises to "" (such as "!!!") makes `mkdir` create the game folder
  itself, and the source then succeeds. The model does not cover that
  success. The configuration view only passes existing games
  (src/views/configuration.py:32).
- Library.GameManager.UpdateCard: two paths are taken to be equal when
  their game, folder and file name are equal. Path normalisation (an empty
  folder name, `.` or `..`) is not modelled.
- Names.IsAlnum covers ASCII letters and digits only. Python's
  `str.isalnum` also accepts other Unicode letters and digits.
- Names.Less is code-point order, like Python's `sorted` on `str`.
  `sorted` on `Path` objects compares the whole path. On POSIX systems,
  within one folder, that reduces to the same order. On Windows both the
  ordering of `Path` objects and `glob` ignore case, which the model does
  not capture.
- Library.GameManager.SaveCard and Library.GameManager.SaveBackImage:
  `cv2.imwrite` usually reports a failed write by returning False rather
  than by raising. The source ignores that value (src/game_manager.py:118,
  :245), stores the count and reports success with no file on disk. The
  `fault` input models only a raised exception.
- Library.Consistent requires every configured type's folder to exist.
  The source tolerates a missing folder (`get_cards_by_type` returns []
  at src/game_manager.py:132-133), but the model cannot represent that
  state. A type whose folder name is "" is modelled as a folder of its
  own. In the source that folder is the game folder itself, which also
  holds `config.json` and the other type folders. The model does not
  capture that aliasing.
- `GameManager.get_games` and the `DATA_DIR` creation in `__init__` are
  directory listings with nothing to prove. The constructor takes the
  initial library state as a parameter.
- Library.GameManager.SaveCard: `int(count)` is taken to be an integer
  already. A count that does not convert raises in Python and is not
  modelled.
- PrintRun.Render: the deck selection is passed as the configuration
  entries chosen. The Streamlit widgets, the display-name lookup
  `type_options` (which keeps only the last of two types with the same
  display name), the read of `config.json` inside a `try`, and the status
  messages are not modelled.
- `PDFGenerator.save`, the temporary file, the download button and fpdf's
  rendering are left out. Whether an image file loads is an input
  predicate (`loads`), standing for the `try`/`except` around
  `self.image`. `set_draw_color` does not change the page model.
- `debug_show`, `cv2.imread`, `cv2.imwrite` and the prints of
  `detect_card.py` are I/O. The model returns the card the script would
  write, or nothing when it stops early.

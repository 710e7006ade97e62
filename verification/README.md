# Image map annotations: a Dafny model

This project models the logic in the image map component of a floorplan
point-annotation tool (`src/ImageMap.tsx`). The user clicks the floorplan
image to drop named markers. Each marker is a *coordinate* with a
position in logical image space (3122 x 1944), a name and a type. The
list of markers can be exported to CSV and imported back. The model covers:

- **CSV export** (`coordinatesToCSV`). It writes the fixed header
  `Name,X,Y,Type`, a newline, then one `name,x,y,type` row per coordinate,
  with the rows joined by newlines. Modelled as `Csv.Export`.
- **CSV import** (`parseCSV`). It splits the text on newlines, takes line 0
  as the header, splits every later line on commas, and finds each field
  through `header.indexOf(column)`. Modelled as `Csv.Parse`. A field whose
  column is missing, or whose row is too short, is JavaScript `undefined`.
  For Name and Type that is `None` here. X and Y go through `parseFloat`,
  which turns `undefined` into the text "undefined" and reads NaN; here
  they are `read("undefined")`, so they are always a number (`Coordinates.Parsed`).
- **Delete by index** (`handleCoordinateDelete`, a copy plus
  `splice(index, 1)`). Modelled as `Annotations.Delete`.
- **Guarded append** in the click handler. The new coordinate is appended
  only when the name typed at the prompt is truthy. Modelled as
  `Annotations.AddOnClick`.
- **Click-to-logical mapping and marker placement**, idealised over the
  reals. Modelled in `Geometry`.

The JavaScript primitives the CSV code relies on are modelled in `Strings`:
`split` and `join` with a one-character separator, and `indexOf`. The
central fact is the split/join round trip, `Strings.SplitJoin`: splitting
the joined parts gives back the parts, provided no part contains the
separator.

Numbers stay abstract. A coordinate is `Coord<N>` for any number type `N`,
and a `NumFormat<N>` pairs the export formatting (`show`, the template
literal) with the import reader (`read`, `parseFloat`). Both are total
functions, so a malformed field reads as whatever sentinel `read` returns,
much as JavaScript returns NaN. The round trip assumes, for each exported
number only, that reading its text back gives the number and that the text
has no comma or newline (`Csv.Exportable`). `Coordinates.Lawful` states the
same thing for all numbers at once. `Decimal` is a concrete lawful format
for whole numbers, which shows that this assumption can be met.

The model follows the code in these places, where a reader might expect something stricter:

- The type is an unchecked string. The import cast and the prompt cast
  check nothing, so the model does not use a two-value enumeration.
- A delete index past the end is a no-op, which is what `splice` does. The
  model does not reject it.
- Import does not require the four columns to be present. A missing
  Name or Type column leaves that field absent in every record, a missing
  X or Y column gives every record the number read from "undefined" (NaN),
  and import still succeeds.
- The round trip does not hold for the empty list. Its export is the
  header line plus a newline, and importing that gives one record read
  from the empty last line: an empty name, no type, and X and Y read from
  "undefined" (`Csv.EmptyExport`).

Files: `optional.dfy` (`Option`), `strings.dfy` (`Strings`),
`coordinates.dfy` (`Coordinates`), `csv.dfy` (`Csv`), `header_order.dfy`
(`HeaderOrder`), `annotations.dfy` (`Annotations`), `geometry.dfy`
(`Geometry`), `decimal.dfy` (`Decimal`), `example.dfy` (`Example`).

## Model

| member | source | states |
|---|---|---|
| Strings.Split | src/ImageMap.tsx:64-67 | `split` with a one-character separator always gives at least one piece, and no piece contains the separator |
| Strings.SplitCount | src/ImageMap.tsx:64-67 | `split` gives exactly one more piece than there are separators in the input |
| Strings.JoinSplit | src/ImageMap.tsx:64-67 | joining the pieces of a string with the separator gives back the string, so `split` loses no characters |
| Strings.SplitJoin | src/ImageMap.tsx:63-101 | joining parts with a separator and then splitting on it gives back the parts, provided there is at least one part and none contains the separator |
| Strings.SplitAtFirst | src/ImageMap.tsx:64-67 | `split` cuts at the first separator: a separator-free prefix becomes the first piece and splitting continues on the rest |
| Strings.JoinCount | src/ImageMap.tsx:99 | `join` of separator-free parts puts exactly one separator between each pair of neighbours, so the result has one separator fewer than there are parts |
| Strings.IndexOf | src/ImageMap.tsx:69-72 | `indexOf` returns -1 exactly when the name is absent, and otherwise the position of its first occurrence |
| Csv.Row | src/ImageMap.tsx:98 | an exported row is the four fields name, x text, y text and type, in that order, joined by commas |
| Csv.Export | src/ImageMap.tsx:95-101 | the export always begins with the exact header `Name,X,Y,Type` and a newline |
| Csv.RowFields | src/ImageMap.tsx:98 | when no field contains a comma, splitting an exported row on commas gives exactly the four fields name, x text, y text and type, in that order |
| Csv.ExportLines | src/ImageMap.tsx:96-100 | when no exported row contains a newline, the lines of an export are the header and then exactly one row per coordinate, in list order (the rows `Csv.Rows` builds), with no trailing empty line; an empty list gives the header and one empty line |
| Csv.EmptyExportText | src/ImageMap.tsx:95-101 | the empty list exports as exactly `Name,X,Y,Type` followed by a newline |
| Csv.Field | src/ImageMap.tsx:69-72 | `values[header.indexOf(col)]`: absent when the column is not in the header; when the first column with that name is at j, the value at j if the row reaches j, otherwise absent |
| Csv.Record | src/ImageMap.tsx:68-73 | when the row reaches the first column named X, Y, Name or Type, the record holds the number read from that column's value (X, Y) or the value itself (Name, Type); when the header has no such column, or the row is too short to reach the first one, X or Y is the number read from the text "undefined" and Name or Type is absent |
| Csv.Parse | src/ImageMap.tsx:63-76 | import returns exactly as many records as the text has newlines, one per line after the header; what each record holds is stated by its unfolding lemma Csv.ParseOfLines (one record per data line, read under the header line's columns) and by Csv.MissingColumn, HeaderOrder.ParseTable and Csv.RoundTrip |
| Csv.MissingColumn | src/ImageMap.tsx:69-72 | import still succeeds when a column is missing from the header: every record's name or type is then absent, and its X or Y is the number read from the text "undefined" (NaN in JavaScript) |
| Csv.HeaderIsColumns | src/ImageMap.tsx:96 | the exported header line splits into the columns Name, X, Y, Type |
| Csv.ColumnPositions | src/ImageMap.tsx:96 | in the exported header, Name, X, Y and Type each occur exactly once, at positions 0 to 3 |
| Csv.RecordOfRow | src/ImageMap.tsx:68-73 | under the exported header, an exported row of an exportable coordinate reads back as that coordinate with every field present |
| Csv.RecordOfEmptyLine | src/ImageMap.tsx:66-73 | under the exported header, an empty line reads as a record whose name is the empty string, whose type is absent, and whose X and Y are read from "undefined" |
| Csv.ImportOfExport | src/ImageMap.tsx:63-101 | when no exported row contains a newline, importing the export of a non-empty list gives one record per coordinate, each read from that coordinate's row under the exported header |
| Csv.RoundTrip | src/ImageMap.tsx:63-101 | importing the export of a non-empty list of exportable coordinates gives back the list, in order, with every field present and equal |
| Csv.RoundTripLawful | src/ImageMap.tsx:63-101 | with a lawful number format, the round trip holds for every non-empty list whose names and types contain neither a comma nor a newline |
| Csv.EmptyExport | src/ImageMap.tsx:63-101 | importing the export of the empty list gives one record, not an empty list: an empty name, no type, and X and Y read from "undefined" |
| HeaderOrder.FieldPermuted | src/ImageMap.tsx:65-72 | when the column occurs at most once in the header, permuting the header and a row of the same length in the same way does not change the field found for it |
| HeaderOrder.RecordPermuted | src/ImageMap.tsx:67-73 | when each looked-up column (Name, X, Y, Type) occurs at most once in the header, permuting the header and a row in the same way gives the same record |
| HeaderOrder.ParseTable | src/ImageMap.tsx:63-76 | importing a table of plain fields gives one record per row, with each field looked up by its column's position in the header |
| HeaderOrder.HeaderLineOnly | src/ImageMap.tsx:64-73 | a text that is one header line and its newline imports as one record, read from the empty last line under that header |
| HeaderOrder.ShortRowNamed | src/ImageMap.tsx:64-72 | the empty last line of `Name,X` plus a newline imports with the empty string as its name |
| HeaderOrder.ShortRowUnnamed | src/ImageMap.tsx:64-72 | the empty last line of `X,Name` plus a newline imports with no name, because the row does not reach the Name column |
| HeaderOrder.ShortRowDependsOnOrder | src/ImageMap.tsx:64-72 | for a row shorter than the header the column order does matter: swapping the two columns of `Name,X` changes the imported name of the empty last line |
| HeaderOrder.HeaderOrderIndependent | src/ImageMap.tsx:63-76 | take a well-formed table (plain column names, each of Name, X, Y and Type at most once, rows as long as the header). Permuting its columns and every row's fields by the same permutation gives the same imported records |
| Annotations.Delete | src/ImageMap.tsx:89-93 | for an index inside the list, the result is one shorter, entries before the index are unchanged and entries after it move down by one; an index past the end leaves the list unchanged |
| Annotations.DeleteRemovesOne | src/ImageMap.tsx:89-92 | deleting inside the list removes exactly the entry at the index: the result plus that entry is the original multiset |
| Annotations.AddOnClick | src/ImageMap.tsx:24-30 | with a truthy name, the list grows by one, the old entries are an unchanged prefix, and the new last entry holds the click position, name and type; with a null or empty name (the falsy answers, `Annotations.Truthy`) the list is unchanged |
| Annotations.DeleteUndoesAdd | src/ImageMap.tsx:89-92 | deleting the last index right after an accepted click restores the list from before the click |
| Geometry.Scale | src/ImageMap.tsx:21-22 | on one axis, the box's near edge maps to 0, its far edge to the logical extent, and any point between them into that range |
| Geometry.ToLogical | src/ImageMap.tsx:20-22 | a click inside the box on an axis gives a logical coordinate inside the 3122 x 1944 image on that axis |
| Geometry.CornersMap | src/ImageMap.tsx:20-22 | a click at the box's top-left corner maps to (0, 0) and a click at its bottom-right corner maps to (3122, 1944) |
| Geometry.ToPercent | src/ImageMap.tsx:122-123 | a logical position inside the image is drawn at an offset from 0 to 100 percent, and the far edge at exactly 100 percent |
| Geometry.MarkerAtClick | src/ImageMap.tsx:122-123 | a marker's percentage offset equals the click's relative offset in the image's bounding box, on each axis |
| Decimal.Show | src/ImageMap.tsx:98 | a whole number is written as a non-empty string of decimal digits, as `${n}` writes integers below 10^21 |
| Decimal.ReadShow | src/ImageMap.tsx:69-70 | reading back the decimal text of a whole number gives the number |
| Decimal.FormatIsLawful | src/ImageMap.tsx:69-70 | the decimal format for whole numbers is lawful: it reads back what it shows and never writes a comma or a newline |
| Example.ExampleRows | src/ImageMap.tsx:98 | the markers AP1 at (100, 200) of type accessPoint and Node2 at (50, 75) of type crawling export as the rows `AP1,100,200,accessPoint` and `Node2,50,75,crawling` |
| Example.ExampleRoundTrip | src/ImageMap.tsx:63-101 | importing the export of those two markers gives them back |

## Left out

- The React component shell, state hooks and JSX rendering (src/ImageMap.tsx:10-17, 103-195) are presentation only.
- The browser I/O is not modelled: the `prompt` calls, `FileReader`, the file-input wiring, and the download link with `encodeURI` and the DOM click (src/ImageMap.tsx:23-27, 44-61, 78-87). The prompt answers become parameters of `Annotations.AddOnClick`, and the file contents become the `csv` argument of `Csv.Parse`.
- Mouse-hover tracking (src/ImageMap.tsx:12-15, 33-42) only affects the display.
- IEEE floating point, `parseFloat` and number-to-text formatting are not modelled exactly; NaN is whatever `read("undefined")` returns. Numbers are the abstract `N` behind a `NumFormat`, and `Geometry` uses exact reals.
- Geometry.ToLogical: a zero-width or zero-height box is excluded by its precondition. In the source it gives Infinity or NaN coordinates.
- Annotations.Delete: negative indexes (which `splice` counts from the end) are excluded by the `nat` index type. The list view only ever passes the index of a shown entry (src/ImageMap.tsx:178-182).
- Annotations.AddOnClick: the type is a string parameter. A cancelled type prompt, which stores `null` as the type, is not modelled.
- Csv.Export takes coordinates whose fields are all present. Exporting imported records with absent fields is not modelled; JavaScript writes the text `undefined` for an absent name or type and `NaN` for a number read from nothing.
- Quoting and escaping are not modelled, because the source has neither. A comma or newline inside a field breaks the row structure, so the round trip and the header-order results require plain fields.
- Decimal.Show: writes plain digits for every `nat`. JavaScript switches to exponent form from 10^21, and integers above 2^53 are not exact numbers, so the format agrees with `${n}` only below 10^21 (and exactly only up to 2^53).
- Geometry.MarkerAtClick: the markers are positioned in percent of the container div, which also holds the Export to CSV button and the file input below the image (src/ImageMap.tsx:169-170). That box is taller than the image, so vertically a marker is drawn where the click was only if the container is as tall as the image. The model relates the offset to the image box only.
- HeaderOrder.HeaderOrderIndependent: holds only for rows as long as the header. A shorter row, such as the empty last line of a file that ends in a newline, can import differently under a reordered header (`HeaderOrder.ShortRowDependsOnOrder`), so the full-length hypothesis is necessary.
- Decimal covers whole numbers only. Fractional numbers are left to the abstract format.

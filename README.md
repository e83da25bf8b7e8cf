# google_docs-ruby: the request batching of `GoogleDocs::Sheet`, in Dafny

This project models the part of the `google_docs` gem that does its own
computation. That is `GoogleDocs::Sheet`, which wraps one sheet of a Google
spreadsheet:

- It translates declarative descriptions into Sheets API requests: column widths, grid
  properties, cell values with their formatting, and merged ranges.
- It queues those requests in `@requests` and sends the whole queue as one batch update
  on `apply_changes!`.

The model also covers `StringUtils.camelize`, which the sheet uses to build the field mask
of a grid-properties update.

The modules follow the Ruby files:

- `Wrappers`: `Option` and `Result`.
- `RubyHash`: the Ruby values that reach the sheet.
  - The value type `Obj`, and truthiness.
  - A Hash is its sequence of entries in insertion order.
  - `Hash#[]`, `Hash#except` and `Hash#merge`.
- `RubyText`: the pieces of Ruby's `String`/`Integer` conversions the sheet relies on:
  ASCII character classes and `upcase`, `Integer#to_s`, `String#to_i` and `Array#join`.
  - `Split` is a proof device that inverts `Array#join`. The gem itself never splits, and
    `Split` is not `String#split`: it keeps trailing empty pieces.
- `StringUtils`: `camelize` with `uppercase_first_letter = true`.
  - It is written as the code's three regular-expression passes.
  - It is proved equal on every string to an independent per-character definition (`CamelFrom`).
  - The properties are proved from that definition.
- `ColumnLetters`: `LETTER_LIST = ('A'..'ZZZ').to_a`.
  - Columns are named in bijective base 26 (`ColumnLetter`); `ColumnIndex` is the inverse.
  - The enumeration itself is modelled as `"A".succ` applied k times (`LetterList`).
  - `LetterListIsTheRange` and `ColumnIndexIsFirstPosition` prove the table and its
    `index` agree with that enumeration.
- `CellFormat`: the pure translators.
  - `hex_to_rgb` and `format_color`; the channels are exact rationals n/255.
  - `format_border(s)`, `format_text`, `format_number` and `format_cell_with`.
  - `detect_type_for` and `extended_value_for`.
  - `format_rows_from`.
- `SheetRequests`:
  - The request datatypes.
  - `grid_range`.
  - The column-width requests of `setup_columns_width`.
  - The field mask of `update_grid_properties`.
  - The A1 range string of `get_rows_values`, with a parser proving it reads back to the
    title, last column and last row.
- `GoogleDocs`:
  - The `Sheet` class, whose field `requests` is the queue. The ghost field `submitted`
    stands for the batches the service received.
  - `Open`, the sheet lookup of `initialize`.

The Google service is not modelled:

- The spreadsheet `get_spreadsheet` returns is an input to `Open`.
- `get_rows_values` is modelled by the range string it asks for (`Sheet.RowsValuesRange`).
- `batch_update_spreadsheet` is modelled as appending the queue to `submitted`.

A raised exception is modelled as a result. `Open` returns `Err`. `SetupColumnsWidth`,
`MergeCells` and `UnmergeCells` return `false` where the Ruby method raises, and their
contracts state exactly what was queued before the raise.

The model follows the code in three places where a reader might expect otherwise:

- A bare `false` cell becomes the string `"false"` (`value || value.to_s`). It does not
  become a boolean.
- `setup_columns_width` does raise on a column name outside `LETTER_LIST`: `nil + 1` fails.
  The entries before it are already queued at that point.
- `download_pdf` does not close its temp file when the block raises (`file.close` is not in
  an `ensure`). That method is left out; see below.

## Model

| member | source | states |
|---|---|---|
| RubyText.StrToI | lib/google_docs/sheet.rb:23 | `String#to_i` in base 10: optional sign, longest run of leading digits, 0 when there is none; specified by the two rows below |
| RubyText.StrToIInvertsDecimal | lib/google_docs/sheet.rb:23 | `n.to_s.to_i == n`: an id written as its numeral reads back as that id |
| RubyText.StrToINonNumeric | lib/google_docs/sheet.rb:23 | a string that starts with neither a digit nor a sign reads as 0 (`'Invalid id'.to_i`) |
| RubyText.SplitJoin | lib/google_docs/sheet.rb:92 | splitting `parts.join(sep)` at `sep` gives `parts` back, when no part contains `sep` |
| StringUtils.Camelize | lib/string_utils.rb:2-9 | the three passes as the source writes them; specified by `StringUtils.CamelizeIsReference` and the Camelize rows below |
| StringUtils.CamelizeIsReference | lib/string_utils.rb:2-9 | the three regular-expression passes equal, on every string, the per-character reference: `_` dropped, `/` becomes `::`, and a character is upcased exactly at the start or after a separator |
| StringUtils.CamelizeHasNoSeparators | lib/string_utils.rb:8 | the output never contains `_` or `/` |
| StringUtils.CamelizeLength | lib/string_utils.rb:8 | output length = input length − #`_` + #`/`; on `[a-z0-9_]` input, input length minus the underscores |
| StringUtils.CamelizeDowncased | lib/string_utils.rb:4-8 | on `[a-z0-9_]` input, downcasing the output gives the input with every `_` removed |
| StringUtils.CamelizeSegments | lib/string_utils.rb:4-8 | on `[a-z0-9_]` input, the output is the concatenation, in order, of the capitalized `_`-separated segments |
| StringUtils.CamelizeJoined | lib/string_utils.rb:4-8 | camelizing segments joined with `_` gives the capitalized segments concatenated |
| StringUtils.CamelizeIdempotent | lib/string_utils.rb:4-8 | camelize applied twice equals camelize applied once, on every string |
| StringUtils.CamelizeSlash | lib/string_utils.rb:8 | `camelize("a/b") == Capitalize(a) + "::" + Capitalize(b)` for word segments a, b |
| StringUtils.CamelizeEmpty | lib/string_utils.rb:4-8 | the empty string maps to the empty string |
| StringUtils.CamelizeKeepsCharOut | lib/string_utils.rb:2-9 | a character other than `:` or an upper-case letter appears in the output only if it appears in the input (so no comma enters a field path) |
| StringUtils.CamelizeGridPropertyKeys | lib/string_utils.rb:2-9 | `row_count`, `column_count`, `frozen_row_count`, `frozen_column_count`, `hide_gridlines` camelize to `RowCount`, `ColumnCount`, `FrozenRowCount`, `FrozenColumnCount`, `HideGridlines` |
| ColumnLetters.ColumnLetter | lib/google_docs/sheet.rb:6 | a name of at least one upper-case letter; `ColumnLetters.LetterListAt` proves it is entry i of `LETTER_LIST` |
| ColumnLetters.ColumnIndex | lib/google_docs/sheet.rb:68 | `LETTER_LIST.index(key)`; specified by `ColumnLetters.ColumnIndexIsFirstPosition` and `ColumnLetters.ColumnIndexRoundTrip` |
| ColumnLetters.LetterAt | lib/google_docs/sheet.rb:31 | `LETTER_LIST[i]` with Ruby indexing: the column name for 0 ≤ i < 18278, counted from the end for a negative i, and nil (interpolated as "") beyond |
| ColumnLetters.ColumnLetterLength | lib/google_docs/sheet.rb:6 | column names have 1, 2 or 3 letters exactly for indices below 26, 702 and 18278 |
| ColumnLetters.ColumnIndexRoundTrip | lib/google_docs/sheet.rb:6 | `ColumnIndex` inverts `ColumnLetter` on 0..18277, and every name it accepts is the name of its index |
| ColumnLetters.LetterListIsTheRange | lib/google_docs/sheet.rb:6 | the table has 18278 entries, starts at "A", each entry is the `succ` of the one before, the last is "ZZZ", no earlier entry is "ZZZ", and every entry has 1 to 3 letters |
| ColumnLetters.LetterListAt | lib/google_docs/sheet.rb:6 | entry i of `('A'..'ZZZ').to_a` is the bijective base-26 name of i |
| ColumnLetters.ColumnIndexIsFirstPosition | lib/google_docs/sheet.rb:68-69 | `LETTER_LIST.index(s)` is the first position holding s, and nil exactly when s is not in the table |
| ColumnLetters.ColumnIndexExamples | lib/google_docs/sheet.rb:6 | "A" is 0, "Z" is 25, "AA" is 26, "ZZZ" is 18277; "AAAA", "a" and "" are not in the table |
| RubyHash.Lookup | lib/google_docs/sheet.rb:133-134 | `hash[key]` is the value of the first entry with that key, and nil when there is none |
| RubyHash.Except | lib/google_docs/sheet.rb:178 | `hash.except(key)` keeps exactly the entries with another key; order and multiplicity are fixed by `RubyHash.ExceptAppend` |
| RubyHash.ExceptOne | lib/google_docs/sheet.rb:178 | on one entry, `except` keeps it exactly when its key is another key |
| RubyHash.ExceptAppend | lib/google_docs/sheet.rb:178 | `except` of a concatenation is the concatenation of the two `except`s; with `ExceptOne` this fixes the order and the number of the kept entries |
| RubyHash.ExceptKeys | lib/google_docs/sheet.rb:178 | the keys left by `except(key)` are the original keys other than `key` |
| RubyHash.Store | lib/google_docs/sheet.rb:169 | after `merge(key => v)`, `key` maps to v, every other key keeps its value, and the key list is unchanged or has `key` appended |
| RubyHash.StoreIdempotent | lib/google_docs/sheet.rb:169 | merging the same pair twice equals merging it once |
| CellFormat.ScanPairsOfHexColor | lib/google_docs/sheet.rb:274 | `"#RRGGBB".scan(/[^#]{2}/)` gives the pairs RR, GG and BB, in that order |
| CellFormat.HexToRgb | lib/google_docs/sheet.rb:273-275 | three channels, each in [0, 1] |
| CellFormat.FormatColor | lib/google_docs/sheet.rb:254-257 | alpha is always 1.0, and red, green and blue are in [0, 1] |
| CellFormat.FormatColorRoundTrip | lib/google_docs/sheet.rb:254-257 | writing the colour back as `#RRGGBB` gives the input, upcased: red, green and blue come from RR, GG and BB, each as byte/255 |
| CellFormat.FormatColorChannels | lib/google_docs/sheet.rb:273-275 | red, green and blue are the pairs RR, GG and BB read as hexadecimal bytes and divided by 255; alpha is 1.0 |
| CellFormat.FormatColorExtremes | lib/google_docs/sheet.rb:254-257 | "#FFFFFF" gives (1, 1, 1, 1) and "#000000" gives (0, 0, 0, 1) |
| CellFormat.FormatBorder | lib/google_docs/sheet.rb:263-269 | one edge: `style` and `width` as given, `color` through `format_color`; specified by the `CellFormat.FormatBorders` row |
| CellFormat.FormatBorders | lib/google_docs/sheet.rb:259-269 | the same edges in the same order, each with its `style` and `width` as given and its `color` through `format_color` |
| CellFormat.FormatText | lib/google_docs/sheet.rb:244-248 | the same keys in the same order; a truthy `foreground_color` becomes a colour, every other entry passes through unchanged |
| CellFormat.FormatCellWith | lib/google_docs/sheet.rb:235-252 | the same keys in the same order; a truthy `background_color`, `borders`, `text_format` or `number_format` is translated by its formatter, and every other entry passes through unchanged |
| CellFormat.DetectType | lib/google_docs/sheet.rb:188-199 | the kind `detect_type_for` picks; specified through `CellFormat.ExtendedValueFor` and `CellFormat.ExtendedValueWellTyped` |
| CellFormat.ExtendedValueFor | lib/google_docs/sheet.rb:188-203 | a string starting with `=` is a formula, an Integer or Float a number, `true` a boolean, anything else a string; nil is sent as "" and false as "false"; a truthy value is sent unchanged |
| CellFormat.ExtendedValueWellTyped | lib/google_docs/sheet.rb:188-203 | the payload always fits its kind and is never nil or false; the `FalseClass` branch of `detect_type_for` is never reached |
| CellFormat.FormatRows | lib/google_docs/sheet.rb:172-186 | the same number of rows and, in each row, the same number of cells, each translated in place |
| CellFormat.FormatCellData | lib/google_docs/sheet.rb:174-182 | one cell of `format_rows_from`; specified by the `CellFormat.FormatCellDataSpec` row |
| CellFormat.FormatCellDataSpec | lib/google_docs/sheet.rb:175-181 | a Hash cell takes its value from `:value` and gets as its format `format_cell_with` applied to the cell without `:value`, a format holding exactly its other keys; any other cell is typed as it stands and gets no format |
| SheetRequests.GridRangeFor | lib/google_docs/sheet.rb:168-170 | `sheet_id` is this sheet's id; every other key keeps its value and its place |
| SheetRequests.GridRangeForIdempotent | lib/google_docs/sheet.rb:168-170 | pinning a pinned range changes nothing |
| SheetRequests.GridRangeForWholeSheet | lib/google_docs/sheet.rb:168-170 | the default `{}` range is just the sheet id, so it covers the whole sheet |
| SheetRequests.ColumnWidthRequest | lib/google_docs/sheet.rb:63-74 | the request targets this sheet |
| SheetRequests.ColumnWidthRequestSpec | lib/google_docs/sheet.rb:63-74 | dimension `COLUMNS`, start = the first position of the name in `LETTER_LIST`, end = start + 1, pixel size as given, fields `pixelSize`, on this sheet |
| SheetRequests.KnownPrefix | lib/google_docs/sheet.rb:62-69 | the entries before the first column name missing from `LETTER_LIST`: all earlier names are in the table, and that one is not |
| SheetRequests.ColumnWidthRequests | lib/google_docs/sheet.rb:62-75 | one request per entry, in entry order |
| SheetRequests.ColumnWidthExample | spec/google_docs/sheet_spec.rb:54-82 | `{'A' => 40, 'B' => 60, 'C' => 150}` resizes columns [0,1), [1,2) and [2,3) to 40, 60 and 150 |
| SheetRequests.FieldPaths | lib/google_docs/sheet.rb:92 | one path `gridProperties.` + camelize(key) per key, in key order |
| SheetRequests.FieldMask | lib/google_docs/sheet.rb:92 | the comma-joined paths; specified by `SheetRequests.FieldMaskPaths` |
| SheetRequests.FieldMaskPaths | lib/google_docs/sheet.rb:92 | splitting the mask at commas gives back exactly the supplied keys' paths, in order: no key is lost or added |
| SheetRequests.FieldMaskExample | spec/google_docs/sheet_spec.rb:86-117 | the five documented grid properties give the documented five paths |
| SheetRequests.FieldMaskExampleString | spec/google_docs/sheet_spec.rb:99-102 | the five documented grid properties give exactly the mask string `gridProperties.RowCount,…,gridProperties.HideGridlines` the example expects |
| SheetRequests.GridPropertyPaths | spec/google_docs/sheet_spec.rb:99-102 | each of the five expected paths is `gridProperties.` followed by the camelized property name |
| SheetRequests.JoinFive | lib/google_docs/sheet.rb:92 | `join` of five parts is the parts with the separator between consecutive ones |
| SheetRequests.ValuesRange | lib/google_docs/sheet.rb:31-34 | the A1 range string `get_rows_values` builds; specified by `SheetRequests.ValuesRangeRoundTrip` and `SheetRequests.ValuesRangeOutOfTable` |
| SheetRequests.ValuesRangeRoundTrip | lib/google_docs/sheet.rb:31-34 | for 1 to 18278 columns, the range reads back as the title, the column at index `column_count - 1` and the row `row_count`, whatever the title |
| SheetRequests.ValuesRangeOutOfTable | lib/google_docs/sheet.rb:31-34 | a sheet with 0 columns asks for column "ZZZ" (index −1), and one with more than 18278 columns names no column |
| SheetRequests.ValuesRangeExample | spec/google_docs/sheet_spec.rb:7-9 | "First sheet name" with 5 columns and 3 rows gives "First sheet name!A1:E3" |
| GoogleDocs.FindSheet | lib/google_docs/sheet.rb:23 | the first sheet with the id, and none exactly when no sheet has it |
| GoogleDocs.OpenExamples | spec/google_docs/sheet_spec.rb:36-40 | with the one sheet of id 1, `'Invalid id'` finds no sheet and `'1'` finds it |
| GoogleDocs.Open | lib/google_docs/sheet.rb:14-27 | fails with "Invalid sheet id" exactly when no sheet has id `sheet_id.to_i`; otherwise a new handle on the first such sheet, with an empty queue |
| GoogleDocs.Sheet.constructor | lib/google_docs/sheet.rb:22-24 | the handle starts with an empty queue and has submitted nothing |
| GoogleDocs.Sheet.RowsValuesRange | lib/google_docs/sheet.rb:30-36 | the range `get_rows_values` asks for reads back as this sheet's title, last column and row count |
| GoogleDocs.Sheet.AppendRequest | lib/google_docs/sheet.rb:164-166 | the request goes at the end of the queue; earlier entries are unchanged |
| GoogleDocs.Sheet.SetupColumnsWidth | lib/google_docs/sheet.rb:61-77 | queues one column-width request per entry, in order; returns true exactly when every name is in `LETTER_LIST`; otherwise it stops at the first unknown name, with the requests before it queued |
| GoogleDocs.Sheet.UpdateGridProperties | lib/google_docs/sheet.rb:89-99 | queues exactly one request: the properties as given, the field mask of their keys, and this sheet's id |
| GoogleDocs.Sheet.UpdateCells | lib/google_docs/sheet.rb:109-117 | queues exactly one request: the translated rows, fields `*`, and the whole-sheet range |
| GoogleDocs.Sheet.MergeCells | lib/google_docs/sheet.rb:130-137 | queues exactly one request with `props[:type]` and `props[:range]` pinned to this sheet; without a Hash under `:range`, it raises and queues nothing |
| GoogleDocs.Sheet.UnmergeCells | lib/google_docs/sheet.rb:147-153 | queues exactly one request with the range pinned to this sheet; a range that is not a Hash raises and queues nothing |
| GoogleDocs.Sheet.ApplyChanges | lib/google_docs/sheet.rb:155-160 | the whole queue, in order, becomes one submitted batch, every request in it targets this sheet, and the queue is empty afterwards |

Every `Sheet` method keeps the invariant `Valid()`: every queued request names this sheet.

## Left out

- The Google client is not modelled:
  - the construction and authorisation of `SheetsService`;
  - `get_spreadsheet`, which is replaced by the `Spreadsheet` argument of `Open`;
  - `get_spreadsheet_values`, where only the range string is kept;
  - `batch_update_spreadsheet`, which is modelled as the ghost log `submitted`.
- The `SERVICE::*` constructors are modelled as plain datatypes. Their own keyword checking is
  not modelled.
- `download_pdf` and `pdf_request` are left out: they are temp-file I/O and an HTTP GET, with no
  logic of their own.
- lib/google_docs/spread_sheet.rb is not part of this model. It only builds a service and calls
  `Sheet.new` for each sheet.
- `HexToRgb` / `FormatColor` use exact rationals n/255, not IEEE doubles.
- Malformed colours are excluded by preconditions. This covers strings other than `#RRGGBB`,
  where `to_i(16)` reads a prefix, and a missing border colour, which raises in `nil.scan`.
- `UpdateCells` requires that every formatting value it translates has the documented shape:
  - a truthy `background_color`, and a truthy `foreground_color` inside `text_format`, is a
    `#RRGGBB` string;
  - `borders` and `text_format` are Hashes;
  - each border has a colour;
  - `number_format` is a Hash.

  The Ruby code raises on other shapes; the model does not model that raise.
- `RubyText.StrToI` models `String#to_i` for an optional sign followed by decimal digits. It
  does not model leading whitespace or `_` digit separators.
- `Open` reads the id with `to_i` as the code does. A non-numeric id therefore reads as 0 and
  would select a sheet whose id is 0.
- The `uppercase_first_letter = false` branch of `camelize` is left out. Nothing in the gem
  uses it.
- Ruby Hashes are entry sequences with distinct keys. Symbol and String keys are both written
  as their names.
- `Obj` stands for the Ruby objects the sheet receives. Any object that is not nil, a boolean,
  an Integer, a Float, a String, a Symbol or a Hash is `Other`; a Rational or a BigDecimal is
  therefore `Other`. `Other` is typed as a string, as in `detect_type_for`.

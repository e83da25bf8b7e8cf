/** The requests `GoogleDocs::Sheet` queues for a batch update
    (lib/google_docs/sheet.rb:61-170), the grid range every one of them is
    pinned to, the field mask of `update_grid_properties` and the A1 range
    string of `get_rows_values`. The API's request classes are plain
    datatypes; a Ruby Hash argument stays a sequence of entries. */
module SheetRequests {
  import opened Wrappers
  import opened RubyHash
  import opened RubyText
  import opened ColumnLetters
  import StringUtils
  import CellFormat

  datatype DimensionRange = DimensionRange(sheetId: int, dimension: string, startIndex: nat, endIndex: nat)

  datatype Request =
    | UpdateDimensionProperties(range: DimensionRange, pixelSize: Obj, fields: string)
    | UpdateSheetProperties(fields: string, gridProperties: seq<(string, Obj)>, sheetId: int)
    | UpdateCells(rows: seq<CellFormat.RowData>, cellFields: string, gridRange: seq<(string, Obj)>)
    | MergeCells(mergeType: Obj, gridRange: seq<(string, Obj)>)
    | UnmergeCells(gridRange: seq<(string, Obj)>)

  // ---------------------------------------------------------------------
  // grid_range

  /** `grid_range(range)`: the caller's range with `sheet_id` set to this
      sheet's id; every other key keeps its value and its place. */
  function GridRangeFor(range: seq<(string, Obj)>, sheetId: int): (r: seq<(string, Obj)>)
    ensures Lookup(r, "sheet_id") == Int(sheetId)
    ensures forall k :: k != "sheet_id" ==> Lookup(r, k) == Lookup(range, k)
    ensures Keys(r) == if "sheet_id" in Keys(range) then Keys(range) else Keys(range) + ["sheet_id"]
  {
    Store(range, "sheet_id", Int(sheetId))
  }

  /** Pinning an already pinned range changes nothing. */
  lemma GridRangeForIdempotent(range: seq<(string, Obj)>, sheetId: int)
    ensures GridRangeFor(GridRangeFor(range, sheetId), sheetId) == GridRangeFor(range, sheetId)
  {
    StoreIdempotent(range, "sheet_id", Int(sheetId));
  }

  /** The default `{}` range of `update_cells` is the whole sheet: only the sheet id. */
  lemma GridRangeForWholeSheet(sheetId: int)
    ensures GridRangeFor([], sheetId) == [("sheet_id", Int(sheetId))]
  {
  }

  /** Every request a sheet queues names that sheet. */
  predicate TargetsSheet(r: Request, sheetId: int) {
    match r
    case UpdateDimensionProperties(range, _, _) => range.sheetId == sheetId
    case UpdateSheetProperties(_, _, id) => id == sheetId
    case UpdateCells(_, _, gridRange) => Lookup(gridRange, "sheet_id") == Int(sheetId)
    case MergeCells(_, gridRange) => Lookup(gridRange, "sheet_id") == Int(sheetId)
    case UnmergeCells(gridRange) => Lookup(gridRange, "sheet_id") == Int(sheetId)
  }

  // ---------------------------------------------------------------------
  // setup_columns_width

  /** The request `setup_columns_width` queues for one entry whose column
      name is in `LETTER_LIST`. */
  function ColumnWidthRequest(sheetId: int, column: string, width: Obj): (r: Request)
    requires ColumnIndex(column).Some?
    ensures TargetsSheet(r, sheetId)
  {
    var i := ColumnIndex(column).value;
    UpdateDimensionProperties(DimensionRange(sheetId, "COLUMNS", i, i + 1), width, "pixelSize")
  }

  /** The request resizes exactly the one column whose position in
      `LETTER_LIST` is the first holding the name, to the given pixel size. */
  lemma ColumnWidthRequestSpec(sheetId: int, column: string, width: Obj)
    requires ColumnIndex(column).Some?
    ensures var r := ColumnWidthRequest(sheetId, column, width);
            && r.UpdateDimensionProperties?
            && r.range.sheetId == sheetId && r.range.dimension == "COLUMNS"
            && r.range.startIndex < |LetterList()| && LetterList()[r.range.startIndex] == column
            && (forall j :: 0 <= j < r.range.startIndex ==> LetterList()[j] != column)
            && r.range.endIndex == r.range.startIndex + 1
            && r.pixelSize == width && r.fields == "pixelSize"
  {
    ColumnIndexIsFirstPosition(column);
  }

  /** How many leading entries name a column of `LETTER_LIST`:
      `setup_columns_width` raises at the first entry that does not. */
  function KnownPrefix(data: seq<(string, Obj)>): (n: nat)
    ensures n <= |data|
    ensures forall i :: 0 <= i < n ==> ColumnIndex(data[i].0).Some?
    ensures n < |data| ==> ColumnIndex(data[n].0).None?
  {
    if data == [] || ColumnIndex(data[0].0).None? then 0 else 1 + KnownPrefix(data[1..])
  }

  /** One request per entry, in entry order. */
  function ColumnWidthRequests(sheetId: int, data: seq<(string, Obj)>): (rs: seq<Request>)
    requires forall i :: 0 <= i < |data| ==> ColumnIndex(data[i].0).Some?
    ensures |rs| == |data|
    ensures forall i :: 0 <= i < |data| ==> rs[i] == ColumnWidthRequest(sheetId, data[i].0, data[i].1)
  {
    seq(|data|, i requires 0 <= i < |data| => ColumnWidthRequest(sheetId, data[i].0, data[i].1))
  }

  /** The documented call `{'A' => 40, 'B' => 60, 'C' => 150}` resizes
      columns 0, 1 and 2. */
  lemma ColumnWidthExample(sheetId: int, data: seq<(string, Obj)>)
    requires data == [("A", Int(40)), ("B", Int(60)), ("C", Int(150))]
    ensures KnownPrefix(data) == 3
    ensures ColumnWidthRequests(sheetId, data) ==
      [ UpdateDimensionProperties(DimensionRange(sheetId, "COLUMNS", 0, 1), Int(40), "pixelSize"),
        UpdateDimensionProperties(DimensionRange(sheetId, "COLUMNS", 1, 2), Int(60), "pixelSize"),
        UpdateDimensionProperties(DimensionRange(sheetId, "COLUMNS", 2, 3), Int(150), "pixelSize") ]
  {
    ColumnIndexExamples();
  }

  // ---------------------------------------------------------------------
  // update_grid_properties: the field mask

  /** `"gridProperties.#{StringUtils.camelize(field.to_s)}"` for each key. */
  function FieldPaths(keys: seq<string>): (paths: seq<string>)
    ensures |paths| == |keys|
    ensures forall i :: 0 <= i < |keys| ==> paths[i] == "gridProperties." + StringUtils.Camelize(keys[i])
  {
    seq(|keys|, i requires 0 <= i < |keys| => "gridProperties." + StringUtils.Camelize(keys[i]))
  }

  /** `props.keys.map { ... }.join(',')`. */
  function FieldMask(keys: seq<string>): string {
    Join(FieldPaths(keys), ',')
  }

  /** The mask names exactly the supplied keys, in key order: splitting it
      at the commas gives back one camelized path per key. */
  lemma FieldMaskPaths(keys: seq<string>)
    requires |keys| >= 1
    requires forall i :: 0 <= i < |keys| ==> ',' !in keys[i]
    ensures Split(FieldMask(keys), ',') == FieldPaths(keys)
  {
    var paths := FieldPaths(keys);
    forall i | 0 <= i < |paths| ensures ',' !in paths[i] {
      StringUtils.CamelizeKeepsCharOut(keys[i], ',');
    }
    SplitJoin(paths, ',');
  }

  /** The paths for the five documented grid properties. */
  lemma FieldMaskExample(keys: seq<string>, names: seq<string>)
    requires keys == ["row_count", "column_count", "frozen_row_count", "frozen_column_count", "hide_gridlines"]
    requires names == ["RowCount", "ColumnCount", "FrozenRowCount", "FrozenColumnCount", "HideGridlines"]
    ensures |FieldPaths(keys)| == 5
    ensures forall i :: 0 <= i < 5 ==> FieldPaths(keys)[i] == "gridProperties." + names[i]
  {
    forall i | 0 <= i < 5
      ensures StringUtils.Camelize(keys[i]) == names[i]
    {
      StringUtils.CamelizeGridPropertyKeys(keys[i], names[i]);
    }
  }

  /** The mask for the five documented grid properties, written out: the
      five literal paths joined by commas. */
  lemma FieldMaskExampleString(keys: seq<string>, names: seq<string>, paths: seq<string>)
    requires keys == ["row_count", "column_count", "frozen_row_count", "frozen_column_count", "hide_gridlines"]
    requires names == ["RowCount", "ColumnCount", "FrozenRowCount", "FrozenColumnCount", "HideGridlines"]
    requires paths == ["gridProperties.RowCount", "gridProperties.ColumnCount", "gridProperties.FrozenRowCount",
                       "gridProperties.FrozenColumnCount", "gridProperties.HideGridlines"]
    ensures FieldMask(keys) == paths[0] + "," + paths[1] + "," + paths[2] + "," + paths[3] + "," + paths[4]
  {
    FieldMaskExample(keys, names);
    GridPropertyPaths(names, paths);
    var p := FieldPaths(keys);
    assert p == paths;
    JoinFive(p, ',');
  }

  // The five literal paths are `gridProperties.` followed by the five names.
  lemma GridPropertyPaths(names: seq<string>, paths: seq<string>)
    requires names == ["RowCount", "ColumnCount", "FrozenRowCount", "FrozenColumnCount", "HideGridlines"]
    requires paths == ["gridProperties.RowCount", "gridProperties.ColumnCount", "gridProperties.FrozenRowCount",
                       "gridProperties.FrozenColumnCount", "gridProperties.HideGridlines"]
    ensures |paths| == 5 && forall i :: 0 <= i < 5 ==> paths[i] == "gridProperties." + names[i]
  {
  }

  // `Array#join` written out on five parts.
  lemma JoinFive(p: seq<string>, sep: char)
    requires |p| == 5
    ensures Join(p, sep) == p[0] + [sep] + p[1] + [sep] + p[2] + [sep] + p[3] + [sep] + p[4]
  {
    var j4 := Join(p[4..], sep);
    assert j4 == p[4];
    var j3 := Join(p[3..], sep);
    assert p[3..][1..] == p[4..];
    assert j3 == p[3] + [sep] + j4;
    var j2 := Join(p[2..], sep);
    assert p[2..][1..] == p[3..];
    assert j2 == p[2] + [sep] + j3;
    var j1 := Join(p[1..], sep);
    assert p[1..][1..] == p[2..];
    assert j1 == p[1] + [sep] + j2;
    assert Join(p, sep) == p[0] + [sep] + j1;
  }

  // ---------------------------------------------------------------------
  // get_rows_values: the A1 range string

  /** `"#{title}!A1:#{LETTER_LIST[column_count - 1]}#{row_count}"`. */
  function ValuesRange(title: string, columnCount: nat, rowCount: nat): string {
    title + "!A1:" + LetterAt(columnCount - 1) + DecimalString(rowCount)
  }

  /** Length of the longest suffix of `s` whose characters all satisfy `p`. */
  function TrailingCount(s: string, p: char -> bool): (n: nat)
    ensures n <= |s|
    ensures forall i :: |s| - n <= i < |s| ==> p(s[i])
    ensures n < |s| ==> !p(s[|s| - n - 1])
  {
    if s == [] || !p(s[|s| - 1]) then 0 else 1 + TrailingCount(s[..|s| - 1], p)
  }

  lemma {:induction false} TrailingCountOfRun(a: string, b: string, p: char -> bool)
    requires forall i :: 0 <= i < |b| ==> p(b[i])
    requires a == [] || !p(a[|a| - 1])
    ensures TrailingCount(a + b, p) == |b|
    decreases |b|
  {
    if b == [] {
      assert a + b == a;
    } else {
      var s := a + b;
      assert s[|s| - 1] == b[|b| - 1];
      assert s[..|s| - 1] == a + b[..|b| - 1];
      TrailingCountOfRun(a, b[..|b| - 1], p);
    }
  }

  /** A range `title!A1:<column><row>` read back from its end: the last
      column's index in `LETTER_LIST` and the last row's number. */
  datatype A1Range = A1Range(title: string, lastColumn: nat, lastRow: nat)

  function ParseValuesRange(s: string): Option<A1Range> {
    var d := TrailingCount(s, IsDigit);
    var rest := s[..|s| - d];
    var l := TrailingCount(rest, IsUpper);
    var head := rest[..|rest| - l];
    var column := ColumnIndex(rest[|rest| - l..]);
    if d >= 1 && |head| >= 4 && head[|head| - 4..] == "!A1:" && column.Some? then
      Some(A1Range(head[..|head| - 4], column.value, NumeralValue(s[|s| - d..])))
    else
      None
  }

  /** Where the two trailing runs of `head + letters + digits` start. */
  lemma TrailingRuns(head: string, letters: string, digits: string)
    requires letters != [] && AllUpper(letters) && AllDigits(digits)
    requires head != [] && !IsUpper(head[|head| - 1])
    ensures var s := head + letters + digits;
            && TrailingCount(s, IsDigit) == |digits|
            && s[..|s| - |digits|] == head + letters
            && s[|s| - |digits|..] == digits
  {
    var s := head + letters + digits;
    TrailingCountOfRun(head + letters, digits, IsDigit);
    assert s[..|s| - |digits|] == head + letters;
    assert s[|s| - |digits|..] == digits;
  }

  /** How `ParseValuesRange` reads a string built from its three parts. */
  lemma ParseOfParts(title: string, letters: string, digits: string)
    requires letters != [] && AllUpper(letters) && digits != [] && AllDigits(digits)
    ensures ColumnIndex(letters).Some? ==>
              ParseValuesRange(title + "!A1:" + letters + digits) ==
              Some(A1Range(title, ColumnIndex(letters).value, NumeralValue(digits)))
  {
    var head := title + "!A1:";
    var s := head + letters + digits;
    TrailingRuns(head, letters, digits);
    var rest := head + letters;
    TrailingCountOfRun(head, letters, IsUpper);
    assert rest[..|rest| - |letters|] == head;
    assert rest[|rest| - |letters|..] == letters;
    assert head[|head| - 4..] == "!A1:";
    assert head[..|head| - 4] == title;
  }

  /** For a sheet of 1 to 18278 columns the range string names the sheet's
      title, the column at index `column_count - 1` and row `row_count`,
      and nothing else: it reads back to exactly those, whatever the title. */
  lemma ValuesRangeRoundTrip(title: string, columnCount: nat, rowCount: nat)
    requires 1 <= columnCount <= LetterCount
    ensures ParseValuesRange(ValuesRange(title, columnCount, rowCount)) == Some(A1Range(title, columnCount - 1, rowCount))
  {
    var letters := ColumnLetter(columnCount - 1);
    var digits := DecimalString(rowCount);
    assert LetterAt(columnCount - 1) == letters;
    assert ValuesRange(title, columnCount, rowCount) == title + "!A1:" + letters + digits;
    ColumnIndexRoundTrip(columnCount - 1, letters);
    NumeralValueOfDecimal(rowCount);
    ParseOfParts(title, letters, digits);
  }

  /** Outside 1..18278 columns Ruby's indexing leaks through: no columns
      names the last entry "ZZZ", too many names no column at all. */
  lemma ValuesRangeOutOfTable(title: string, columnCount: nat, rowCount: nat)
    ensures columnCount == 0 ==> ValuesRange(title, columnCount, rowCount) == title + "!A1:" + ColumnLetter(LetterCount - 1) + DecimalString(rowCount)
    ensures columnCount > LetterCount ==> ValuesRange(title, columnCount, rowCount) == title + "!A1:" + DecimalString(rowCount)
  {
  }

  /** The documented sheet: title "First sheet name", 5 columns, 3 rows. */
  lemma ValuesRangeExample(title: string, range: string)
    requires title == "First sheet name" && range == "First sheet name!A1:E3"
    ensures ValuesRange(title, 5, 3) == range
  {
    assert ColumnLetter(4) == "E";
    assert DecimalString(3) == "3";
  }
}

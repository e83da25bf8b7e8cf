/** `GoogleDocs::Sheet` (lib/google_docs/sheet.rb): one sheet of a
    spreadsheet and the queue of requests it batches until
    `apply_changes!`. The spreadsheet the service returns is an input; the
    batch update the service receives is the ghost log `submitted`. */
module GoogleDocs {
  import opened Wrappers
  import opened RubyHash
  import opened RubyText
  import opened ColumnLetters
  import opened CellFormat
  import opened SheetRequests

  datatype GridProperties = GridProperties(columnCount: nat, rowCount: nat)

  datatype SheetProperties = SheetProperties(sheetId: int, title: string, gridProperties: GridProperties)

  /** What `get_spreadsheet` returns: the id and the sheets, in order. */
  datatype Spreadsheet = Spreadsheet(spreadsheetId: string, sheets: seq<SheetProperties>)

  /** The `sheet_id:` argument: a String or an Integer, read with `to_i`. */
  datatype SheetIdArg = IdText(text: string) | IdNumber(n: int)

  function ToI(a: SheetIdArg): int {
    match a
    case IdText(t) => StrToI(t)
    case IdNumber(n) => n
  }

  /** `sheets.find { |sheet| sheet.properties.sheet_id == id }`, as a position. */
  function FindSheet(sheets: seq<SheetProperties>, id: int): (r: Option<nat>)
    ensures r.Some? ==> r.value < |sheets| && sheets[r.value].sheetId == id
                        && forall j :: 0 <= j < r.value ==> sheets[j].sheetId != id
    ensures r.None? <==> forall j :: 0 <= j < |sheets| ==> sheets[j].sheetId != id
  {
    if sheets == [] then None
    else if sheets[0].sheetId == id then Some(0)
    else
      var rest := FindSheet(sheets[1..], id);
      if rest.None? then None else Some(rest.value + 1)
  }

  class Sheet {
    const spreadsheet: Spreadsheet
    const sheet: SheetProperties
    /** `@requests`: the pending batch, oldest first. */
    var requests: seq<Request>
    /** Every batch handed to `batch_update_spreadsheet`, oldest first. */
    ghost var submitted: seq<seq<Request>>

    /** Every pending request names this sheet. */
    ghost predicate Valid()
      reads this
    {
      forall i :: 0 <= i < |requests| ==> TargetsSheet(requests[i], sheet.sheetId)
    }

    /** The part of `initialize` after the sheet was found. */
    constructor(spreadsheet: Spreadsheet, sheet: SheetProperties)
      ensures this.spreadsheet == spreadsheet && this.sheet == sheet
      ensures requests == [] && submitted == []
      ensures Valid()
    {
      this.spreadsheet := spreadsheet;
      this.sheet := sheet;
      requests := [];
      submitted := [];
    }

    /** The range `get_rows_values` asks the service for. */
    function RowsValuesRange(): (range: string)
      ensures 1 <= sheet.gridProperties.columnCount <= LetterCount ==>
                ParseValuesRange(range) ==
                Some(A1Range(sheet.title, sheet.gridProperties.columnCount - 1, sheet.gridProperties.rowCount))
    {
      var grid := sheet.gridProperties;
      if 1 <= grid.columnCount <= LetterCount then
        ValuesRangeRoundTrip(sheet.title, grid.columnCount, grid.rowCount);
        ValuesRange(sheet.title, grid.columnCount, grid.rowCount)
      else
        ValuesRange(sheet.title, grid.columnCount, grid.rowCount)
    }

    /** `append_request`: one request at the end of the queue. */
    method AppendRequest(r: Request)
      requires Valid() && TargetsSheet(r, sheet.sheetId)
      modifies this
      ensures requests == old(requests) + [r]
      ensures submitted == old(submitted)
      ensures Valid()
    {
      requests := requests + [r];
    }

    /** `setup_columns_width(data)`: one column-width request per entry, in
        entry order; at the first column name not in `LETTER_LIST` it raises
        (`ok` is false) with the earlier entries already queued. */
    method SetupColumnsWidth(data: seq<(string, Obj)>) returns (ok: bool)
      requires Valid()
      modifies this
      ensures ok <==> KnownPrefix(data) == |data|
      ensures requests == old(requests) + ColumnWidthRequests(sheet.sheetId, data[..KnownPrefix(data)])
      ensures submitted == old(submitted)
      ensures Valid()
    {
      var i := 0;
      while i < |data|
        invariant i <= KnownPrefix(data)
        invariant requests == old(requests) + ColumnWidthRequests(sheet.sheetId, data[..i])
        invariant submitted == old(submitted)
        invariant Valid()
      {
        var (column, width) := data[i];
        if ColumnIndex(column).None? {
          return false;
        }
        AppendRequest(ColumnWidthRequest(sheet.sheetId, column, width));
        assert data[..i + 1] == data[..i] + [data[i]];
        i := i + 1;
      }
      return true;
    }

    /** `update_grid_properties(props)`: one request carrying the properties
        as given and the field mask of their keys. */
    method UpdateGridProperties(props: seq<(string, Obj)>)
      requires Valid()
      modifies this
      ensures requests == old(requests) + [UpdateSheetProperties(FieldMask(Keys(props)), props, sheet.sheetId)]
      ensures submitted == old(submitted)
      ensures Valid()
    {
      AppendRequest(UpdateSheetProperties(FieldMask(Keys(props)), props, sheet.sheetId));
    }

    /** `update_cells(data)`: one request writing every field (`'*'`) of the
        translated rows over the whole sheet. */
    method UpdateCells(data: seq<seq<Obj>>)
      requires Valid() && WellFormedRows(data)
      modifies this
      ensures requests == old(requests) + [Request.UpdateCells(FormatRows(data), "*", GridRangeFor([], sheet.sheetId))]
      ensures submitted == old(submitted)
      ensures Valid()
    {
      AppendRequest(Request.UpdateCells(FormatRows(data), "*", GridRangeFor([], sheet.sheetId)));
    }

    /** `merge_cells(props)`: one request with `props[:type]` and
        `props[:range]` pinned to this sheet; without a Hash under `:range`
        `nil.merge` raises (`ok` is false) and nothing is queued. */
    method MergeCells(props: seq<(string, Obj)>) returns (ok: bool)
      requires Valid()
      modifies this
      ensures ok <==> Lookup(props, "range").Hash?
      ensures ok ==>
                requests == old(requests) +
                  [Request.MergeCells(Lookup(props, "type"), GridRangeFor(Lookup(props, "range").entries, sheet.sheetId))]
      ensures !ok ==> requests == old(requests)
      ensures submitted == old(submitted)
      ensures Valid()
    {
      var range := Lookup(props, "range");
      if !range.Hash? {
        return false;
      }
      AppendRequest(Request.MergeCells(Lookup(props, "type"), GridRangeFor(range.entries, sheet.sheetId)));
      return true;
    }

    /** `unmerge_cells(range)`: one request with the range pinned to this
        sheet; a range that is not a Hash raises and nothing is queued. */
    method UnmergeCells(range: Obj) returns (ok: bool)
      requires Valid()
      modifies this
      ensures ok <==> range.Hash?
      ensures ok ==> requests == old(requests) + [Request.UnmergeCells(GridRangeFor(range.entries, sheet.sheetId))]
      ensures !ok ==> requests == old(requests)
      ensures submitted == old(submitted)
      ensures Valid()
    {
      if !range.Hash? {
        return false;
      }
      AppendRequest(Request.UnmergeCells(GridRangeFor(range.entries, sheet.sheetId)));
      return true;
    }

    /** `apply_changes!`: the whole queue, in order, goes to the service as
        one batch, and the queue starts over empty. */
    method ApplyChanges()
      requires Valid()
      modifies this
      ensures submitted == old(submitted) + [old(requests)]
      ensures forall i :: 0 <= i < |old(requests)| ==> TargetsSheet(old(requests)[i], sheet.sheetId)
      ensures requests == []
      ensures Valid()
    {
      submitted := submitted + [requests];
      requests := [];
    }
  }

  /** `Sheet.new(spreadsheet_id:, sheet_id:)` once the service returned
      `spreadsheet`: the first sheet whose id is `sheet_id.to_i`, with an
      empty queue; `ArgumentError` when no sheet has that id. */
  method Open(spreadsheet: Spreadsheet, sheetId: SheetIdArg) returns (r: Result<Sheet, string>)
    ensures r.Err? <==> FindSheet(spreadsheet.sheets, ToI(sheetId)).None?
    ensures r.Err? ==> r.error == "Invalid sheet id"
    ensures r.Ok? ==> && fresh(r.value)
                      && r.value.spreadsheet == spreadsheet
                      && r.value.sheet == spreadsheet.sheets[FindSheet(spreadsheet.sheets, ToI(sheetId)).value]
                      && r.value.requests == [] && r.value.submitted == []
                      && r.value.Valid()
  {
    var found := FindSheet(spreadsheet.sheets, ToI(sheetId));
    if found.None? {
      return Err("Invalid sheet id");
    }
    var s := new Sheet(spreadsheet, spreadsheet.sheets[found.value]);
    return Ok(s);
  }

  /** A non-numeric id reads as 0: it is refused unless some sheet has id 0,
      while the numeral of an id finds that sheet. */
  lemma OpenExamples(invalid: string, one: string, sheets: seq<SheetProperties>)
    requires invalid == "Invalid id" && one == "1"
    requires |sheets| == 1 && sheets[0].sheetId == 1
    ensures FindSheet(sheets, ToI(IdText(invalid))).None?
    ensures FindSheet(sheets, ToI(IdText(one))) == Some(0)
  {
    StrToINonNumeric(invalid);
    StrToIInvertsDecimal(1);
    assert DecimalString(1) == one;
  }
}

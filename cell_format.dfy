/** The pure translators of `GoogleDocs::Sheet` (lib/google_docs/sheet.rb:172-275):
    cell values become typed extended values, formatting hashes become cell
    formats, and `#RRGGBB` colours become red, green and blue channels.
    The API's constructor classes (`CellData`, `CellFormat`, `Color`, ...)
    are plain datatypes here. */
module CellFormat {
  import opened Wrappers
  import opened RubyHash
  import opened RubyText

  // ---------------------------------------------------------------------
  // Colours: hex_to_rgb and format_color

  predicate IsHexDigit(c: char) {
    '0' <= c <= '9' || 'a' <= c <= 'f' || 'A' <= c <= 'F'
  }

  function HexDigitValue(c: char): (d: nat)
    requires IsHexDigit(c)
    ensures d < 16
  {
    if '0' <= c <= '9' then c as int - '0' as int
    else if 'a' <= c <= 'f' then c as int - 'a' as int + 10
    else c as int - 'A' as int + 10
  }

  /** The documented colour format `#RRGGBB`. */
  predicate IsHexColor(s: string) {
    |s| == 7 && s[0] == '#' && forall i :: 1 <= i < 7 ==> IsHexDigit(s[i])
  }

  // `hex.scan(/[^#]{2}/)`: the leftmost non-overlapping pairs of characters
  // other than `#`.
  function ScanPairs(s: string): seq<string>
    decreases |s|
  {
    if |s| < 2 then []
    else if s[0] != '#' && s[1] != '#' then [s[..2]] + ScanPairs(s[2..])
    else ScanPairs(s[1..])
  }

  /** `pair.to_i(16)` for two hexadecimal digits. */
  function PairValue(p: string): (n: nat)
    requires |p| == 2 && IsHexDigit(p[0]) && IsHexDigit(p[1])
    ensures n < 256
  {
    HexDigitValue(p[0]) * 16 + HexDigitValue(p[1])
  }

  lemma ScanPairsOfHexColor(hex: string)
    requires IsHexColor(hex)
    ensures ScanPairs(hex) == [hex[1..3], hex[3..5], hex[5..7]]
  {
    var s1, s3, s5 := hex[1..], hex[3..], hex[5..];
    assert ScanPairs(hex) == ScanPairs(s1);
    assert s1[..2] == hex[1..3] && s1[2..] == s3;
    assert ScanPairs(s1) == [hex[1..3]] + ScanPairs(s3);
    assert s3[..2] == hex[3..5] && s3[2..] == s5;
    assert ScanPairs(s3) == [hex[3..5]] + ScanPairs(s5);
    assert s5[..2] == hex[5..7] && |s5[2..]| == 0;
    assert ScanPairs(s5) == [hex[5..7]];
  }

  /** `hex_to_rgb(hex)`: each pair read base 16 and divided by 255, exactly. */
  function HexToRgb(hex: string): (rgb: seq<real>)
    requires IsHexColor(hex)
    ensures |rgb| == 3
    ensures forall i :: 0 <= i < 3 ==> 0.0 <= rgb[i] <= 1.0
  {
    ScanPairsOfHexColor(hex);
    var pairs := ScanPairs(hex);
    seq(3, i requires 0 <= i < 3 => PairValue(pairs[i]) as real / 255.0)
  }

  datatype Color = Color(red: real, green: real, blue: real, alpha: real)

  /** `format_color(hex)`: the three channels and a fixed alpha of 1.0. */
  function FormatColor(hex: string): (c: Color)
    requires IsHexColor(hex)
    ensures c.alpha == 1.0
    ensures 0.0 <= c.red <= 1.0 && 0.0 <= c.green <= 1.0 && 0.0 <= c.blue <= 1.0
  {
    var rgb := HexToRgb(hex);
    Color(rgb[0], rgb[1], rgb[2], 1.0)
  }

  function HexChar(d: nat): (c: char)
    requires d < 16
    ensures IsHexDigit(c)
  {
    if d < 10 then ('0' as int + d) as char else ('A' as int + d - 10) as char
  }

  /** The byte a channel stands for. */
  function ChannelByte(x: real): int {
    (x * 255.0).Floor
  }

  function ByteHex(n: nat): string
    requires n < 256
  {
    [HexChar(n / 16), HexChar(n % 16)]
  }

  /** Inverse of `FormatColor`: the upper-case `#RRGGBB` naming a colour. */
  function ColorHex(c: Color): string
    requires 0 <= ChannelByte(c.red) < 256 && 0 <= ChannelByte(c.green) < 256 && 0 <= ChannelByte(c.blue) < 256
  {
    "#" + ByteHex(ChannelByte(c.red)) + ByteHex(ChannelByte(c.green)) + ByteHex(ChannelByte(c.blue))
  }

  /** `upcase` on a hexadecimal string: the digits `a`-`f` become `A`-`F`. */
  function UpcaseHex(s: string): (r: string)
    ensures |r| == |s| && forall i :: 0 <= i < |s| ==> r[i] == Upcase(s[i])
  {
    if s == [] then [] else [Upcase(s[0])] + UpcaseHex(s[1..])
  }

  lemma ChannelRoundTrip(n: nat)
    requires n < 256
    ensures ChannelByte(n as real / 255.0) == n
  {
    assert n as real / 255.0 * 255.0 == n as real;
  }

  lemma HexCharOfDigit(c: char)
    requires IsHexDigit(c)
    ensures HexChar(HexDigitValue(c)) == Upcase(c)
  {
  }

  lemma PairRoundTrip(p: string)
    requires |p| == 2 && IsHexDigit(p[0]) && IsHexDigit(p[1])
    ensures ByteHex(PairValue(p)) == UpcaseHex(p)
  {
    var n := PairValue(p);
    assert n / 16 == HexDigitValue(p[0]) && n % 16 == HexDigitValue(p[1]);
    HexCharOfDigit(p[0]);
    HexCharOfDigit(p[1]);
  }

  /** `format_color` reads the pairs in red, green, blue order and loses
      nothing but the letter case: writing the colour back gives the input
      with its hex letters upcased. */
  lemma FormatColorRoundTrip(hex: string)
    requires IsHexColor(hex)
    ensures var c := FormatColor(hex);
            && 0 <= ChannelByte(c.red) < 256 && 0 <= ChannelByte(c.green) < 256 && 0 <= ChannelByte(c.blue) < 256
            && ColorHex(c) == UpcaseHex(hex)
  {
    var r, g, b := hex[1..3], hex[3..5], hex[5..7];
    FormatColorChannels(hex);
    PairChannelRoundTrip(r);
    PairChannelRoundTrip(g);
    PairChannelRoundTrip(b);
    var c := FormatColor(hex);
    assert ChannelByte(c.red) == PairValue(r) && ChannelByte(c.green) == PairValue(g)
        && ChannelByte(c.blue) == PairValue(b);
    assert ColorHex(c) == "#" + UpcaseHex(r) + UpcaseHex(g) + UpcaseHex(b);
    assert hex == "#" + r + g + b;
    UpcaseHexAppend("#" + r + g, b);
    UpcaseHexAppend("#" + r, g);
    UpcaseHexAppend("#", r);
  }

  // The three channels of `FormatColor`, pair by pair.
  lemma FormatColorChannels(hex: string)
    requires IsHexColor(hex)
    ensures FormatColor(hex) == Color(PairValue(hex[1..3]) as real / 255.0,
                                      PairValue(hex[3..5]) as real / 255.0,
                                      PairValue(hex[5..7]) as real / 255.0, 1.0)
  {
    ScanPairsOfHexColor(hex);
  }

  // One channel of `FormatColor`: its byte is the pair's value, written back upcased.
  lemma PairChannelRoundTrip(p: string)
    requires |p| == 2 && IsHexDigit(p[0]) && IsHexDigit(p[1])
    ensures ChannelByte(PairValue(p) as real / 255.0) == PairValue(p)
    ensures ByteHex(PairValue(p)) == UpcaseHex(p)
  {
    ChannelRoundTrip(PairValue(p));
    PairRoundTrip(p);
  }

  lemma UpcaseHexAppend(a: string, b: string)
    ensures UpcaseHex(a + b) == UpcaseHex(a) + UpcaseHex(b)
  {
  }

  /** White and black. */
  lemma FormatColorExtremes(white: string, black: string)
    requires white == "#FFFFFF" && black == "#000000"
    ensures FormatColor(white) == Color(1.0, 1.0, 1.0, 1.0)
    ensures FormatColor(black) == Color(0.0, 0.0, 0.0, 1.0)
  {
    ScanPairsOfHexColor(white);
    ScanPairsOfHexColor(black);
    assert white[1..3] == "FF" && white[3..5] == "FF" && white[5..7] == "FF";
    assert black[1..3] == "00" && black[3..5] == "00" && black[5..7] == "00";
  }

  // ---------------------------------------------------------------------
  // Borders, text format, number format

  datatype Border = Border(style: Obj, width: Obj, color: Color)

  /** What `format_border` needs: a Hash whose `color` is `#RRGGBB`
      (a missing colour would reach `nil.scan` and raise). */
  predicate WellFormedBorder(props: Obj) {
    props.Hash? && Lookup(props.entries, "color").Str? && IsHexColor(Lookup(props.entries, "color").s)
  }

  /** `format_border(props)`. */
  function FormatBorder(props: Obj): (b: Border)
    requires WellFormedBorder(props)
  {
    Border(Lookup(props.entries, "style"), Lookup(props.entries, "width"),
           FormatColor(Lookup(props.entries, "color").s))
  }

  /** Apply `f` to every value, keeping keys and order: `hash.map { |k, v| [k, f(v)] }.to_h`. */
  function MapValues<A, B>(entries: seq<(string, A)>, f: (string, A) --> B): (r: seq<(string, B)>)
    requires forall i :: 0 <= i < |entries| ==> f.requires(entries[i].0, entries[i].1)
    ensures |r| == |entries|
    ensures forall i :: 0 <= i < |entries| ==> r[i] == (entries[i].0, f(entries[i].0, entries[i].1))
  {
    if entries == [] then []
    else [(entries[0].0, f(entries[0].0, entries[0].1))] + MapValues(entries[1..], f)
  }

  function FormatBorderEntry(position: string, props: Obj): Border
    requires WellFormedBorder(props)
  {
    FormatBorder(props)
  }

  predicate WellFormedBorders(edges: seq<(string, Obj)>) {
    forall i :: 0 <= i < |edges| ==> WellFormedBorder(edges[i].1)
  }

  /** `format_borders(borders)`: every edge, in order, through `format_border`. */
  function FormatBorders(edges: seq<(string, Obj)>): (r: seq<(string, Border)>)
    requires WellFormedBorders(edges)
    ensures Keys(r) == Keys(edges)
    ensures forall i :: 0 <= i < |edges| ==>
              var props := edges[i].1.entries;
              && r[i].1.style == Lookup(props, "style")
              && r[i].1.width == Lookup(props, "width")
              && r[i].1.color == FormatColor(Lookup(props, "color").s)
  {
    MapValues(edges, FormatBorderEntry)
  }

  /** A cell-format field after translation. */
  datatype FormatField =
    | Raw(value: Obj)                                  // passed through unchanged
    | ColorField(color: Color)                         // format_color
    | BordersField(edges: seq<(string, Border)>)       // format_borders
    | TextFormatField(textProps: seq<(string, FormatField)>) // format_text
    | NumberFormatField(numberProps: seq<(string, Obj)>)     // format_number

  predicate WellFormedColorValue(v: Obj) {
    v.Str? && IsHexColor(v.s)
  }

  predicate WellFormedTextEntry(key: string, v: Obj) {
    key == "foreground_color" && Truthy(v) ==> WellFormedColorValue(v)
  }

  /** `props[:foreground_color] &&= format_color(props[:foreground_color])`, per entry. */
  function FormatTextEntry(key: string, v: Obj): FormatField
    requires WellFormedTextEntry(key, v)
  {
    if key == "foreground_color" && Truthy(v) then ColorField(FormatColor(v.s)) else Raw(v)
  }

  predicate WellFormedText(props: seq<(string, Obj)>) {
    forall i :: 0 <= i < |props| ==> WellFormedTextEntry(props[i].0, props[i].1)
  }

  /** `format_text(props)`: the same keys in the same order; a truthy
      `foreground_color` becomes a colour, every other entry passes through. */
  function FormatText(props: seq<(string, Obj)>): (r: seq<(string, FormatField)>)
    requires WellFormedText(props)
    ensures Keys(r) == Keys(props)
    ensures forall i :: 0 <= i < |props| && props[i].0 == "foreground_color" && Truthy(props[i].1)
              ==> r[i].1 == ColorField(FormatColor(props[i].1.s))
    ensures forall i :: 0 <= i < |props| && !(props[i].0 == "foreground_color" && Truthy(props[i].1))
              ==> r[i].1 == Raw(props[i].1)
  {
    MapValues(props, FormatTextEntry)
  }

  // ---------------------------------------------------------------------
  // format_cell_with

  /** The keys `format_cell_with` transforms. */
  predicate IsFormattedKey(key: string) {
    key == "background_color" || key == "borders" || key == "text_format" || key == "number_format"
  }

  /** What `format_cell_with` needs of one present, truthy entry to not raise. */
  predicate WellFormedEntry(key: string, v: Obj) {
    Truthy(v) ==>
      && (key == "background_color" ==> WellFormedColorValue(v))
      && (key == "borders" ==> v.Hash? && WellFormedBorders(v.entries))
      && (key == "text_format" ==> v.Hash? && WellFormedText(v.entries))
      && (key == "number_format" ==> v.Hash?)
  }

  /** One entry of `format_cell_with`: `params[key] &&= format_...(params[key])`
      replaces a truthy value of the four formatted keys and leaves every
      other entry as it is. */
  function FormatEntry(key: string, v: Obj): FormatField
    requires WellFormedEntry(key, v)
  {
    if !Truthy(v) then Raw(v)
    else if key == "background_color" then ColorField(FormatColor(v.s))
    else if key == "borders" then BordersField(FormatBorders(v.entries))
    else if key == "text_format" then TextFormatField(FormatText(v.entries))
    else if key == "number_format" then NumberFormatField(v.entries)
    else Raw(v)
  }

  type CellFormatFields = seq<(string, FormatField)>

  predicate WellFormedFormat(params: seq<(string, Obj)>) {
    forall i :: 0 <= i < |params| ==> WellFormedEntry(params[i].0, params[i].1)
  }

  /** `format_cell_with(params)`: the same keys in the same order; a truthy
      value under one of the four formatted keys is translated, every other
      entry passes through unchanged. */
  function FormatCellWith(params: seq<(string, Obj)>): (r: CellFormatFields)
    requires WellFormedFormat(params)
    ensures Keys(r) == Keys(params)
    ensures forall i :: 0 <= i < |params| && (!IsFormattedKey(params[i].0) || !Truthy(params[i].1))
              ==> r[i].1 == Raw(params[i].1)
    ensures forall i :: 0 <= i < |params| && params[i].0 == "background_color" && Truthy(params[i].1)
              ==> r[i].1 == ColorField(FormatColor(params[i].1.s))
    ensures forall i :: 0 <= i < |params| && params[i].0 == "borders" && Truthy(params[i].1)
              ==> r[i].1 == BordersField(FormatBorders(params[i].1.entries))
    ensures forall i :: 0 <= i < |params| && params[i].0 == "text_format" && Truthy(params[i].1)
              ==> r[i].1 == TextFormatField(FormatText(params[i].1.entries))
    ensures forall i :: 0 <= i < |params| && params[i].0 == "number_format" && Truthy(params[i].1)
              ==> r[i].1 == NumberFormatField(params[i].1.entries)
  {
    MapValues(params, FormatEntry)
  }

  // ---------------------------------------------------------------------
  // Cell values: detect_type_for and extended_value_for

  datatype ValueKind = FormulaValue | StringValue | NumberValue | BoolValue

  /** `ExtendedValue.new(kind => payload)`: one typed field. */
  datatype ExtendedValue = ExtendedValue(kind: ValueKind, payload: Obj)

  /** `detect_type_for(value)`. */
  function DetectType(v: Obj): ValueKind {
    match v
    case Str(s) => if |s| > 0 && s[0] == '=' then FormulaValue else StringValue
    case Int(_) => NumberValue
    case Float(_) => NumberValue
    case True => BoolValue
    case False => BoolValue
    case _ => StringValue
  }

  /** `value || value.to_s`: nil becomes "" and false becomes "false". */
  function Coerce(v: Obj): Obj {
    if v.Nil? then Str("") else if v.False? then Str("false") else v
  }

  /** `extended_value_for(value)`. */
  function ExtendedValueFor(v: Obj): (e: ExtendedValue)
    ensures e.kind == FormulaValue <==> v.Str? && |v.s| > 0 && v.s[0] == '='
    ensures e.kind == NumberValue <==> v.Int? || v.Float?
    ensures e.kind == BoolValue <==> v.True?
    ensures e.kind == StringValue <==> !(v.Str? && |v.s| > 0 && v.s[0] == '=') && !v.Int? && !v.Float? && !v.True?
    ensures v.Nil? ==> e.payload == Str("")
    ensures v.False? ==> e.payload == Str("false")
    ensures Truthy(v) ==> e.payload == v
  {
    var p := Coerce(v);
    ExtendedValue(DetectType(p), p)
  }

  /** The payload always fits its kind: a formula is a string starting with
      `=`, a number an Integer or Float, a boolean `true`; the `false` branch
      of `detect_type_for` is never reached from `extended_value_for`. */
  lemma ExtendedValueWellTyped(v: Obj)
    ensures var e := ExtendedValueFor(v);
            && (e.kind == FormulaValue ==> e.payload.Str? && |e.payload.s| > 0 && e.payload.s[0] == '=')
            && (e.kind == NumberValue ==> e.payload.Int? || e.payload.Float?)
            && (e.kind == BoolValue ==> e.payload == True)
            && !e.payload.Nil? && !e.payload.False?
  {
  }

  // ---------------------------------------------------------------------
  // format_rows_from

  datatype CellData = CellData(userEnteredValue: ExtendedValue, userEnteredFormat: Option<CellFormatFields>)

  datatype RowData = RowData(values: seq<CellData>)

  /** A cell `format_rows_from` translates without raising. */
  predicate WellFormedCell(cell: Obj) {
    cell.Hash? ==> WellFormedFormat(cell.entries)
  }

  predicate WellFormedRows(rows: seq<seq<Obj>>) {
    forall i, j :: 0 <= i < |rows| && 0 <= j < |rows[i]| ==> WellFormedCell(rows[i][j])
  }

  lemma ExceptKeepsWellFormed(entries: seq<(string, Obj)>, key: string)
    requires WellFormedFormat(entries)
    ensures WellFormedFormat(Except(entries, key))
  {
    var r := Except(entries, key);
    forall i | 0 <= i < |r| ensures WellFormedEntry(r[i].0, r[i].1) {
      assert r[i] in r;
    }
  }

  /** One cell of `format_rows_from`. */
  function FormatCellData(cell: Obj): CellData
    requires WellFormedCell(cell)
  {
    if cell.Hash? then
      ExceptKeepsWellFormed(cell.entries, "value");
      CellData(ExtendedValueFor(Lookup(cell.entries, "value")),
               Some(FormatCellWith(Except(cell.entries, "value"))))
    else
      CellData(ExtendedValueFor(cell), None)
  }

  /** `format_rows_from(values)`: the same number of rows, each with the
      same number of cells, each cell translated in place. */
  function FormatRows(rows: seq<seq<Obj>>): (out: seq<RowData>)
    requires WellFormedRows(rows)
    ensures |out| == |rows|
    ensures forall i :: 0 <= i < |rows| ==> |out[i].values| == |rows[i]|
    ensures forall i, j :: 0 <= i < |rows| && 0 <= j < |rows[i]| ==> out[i].values[j] == FormatCellData(rows[i][j])
  {
    if rows == [] then []
    else [RowData(FormatRow(rows[0]))] + FormatRows(rows[1..])
  }

  function FormatRow(cells: seq<Obj>): (out: seq<CellData>)
    requires forall j :: 0 <= j < |cells| ==> WellFormedCell(cells[j])
    ensures |out| == |cells|
    ensures forall j :: 0 <= j < |cells| ==> out[j] == FormatCellData(cells[j])
  {
    if cells == [] then [] else [FormatCellData(cells[0])] + FormatRow(cells[1..])
  }

  /** A Hash cell takes its value from `:value` and gets a format holding
      exactly its other keys; any other cell is typed as it stands and gets
      no format. */
  lemma FormatCellDataSpec(cell: Obj)
    requires WellFormedCell(cell)
    ensures var d := FormatCellData(cell);
            && (cell.Hash? ==>
                  && d.userEnteredValue == ExtendedValueFor(Lookup(cell.entries, "value"))
                  && WellFormedFormat(Except(cell.entries, "value"))
                  && d.userEnteredFormat == Some(FormatCellWith(Except(cell.entries, "value")))
                  && (forall k :: k in Keys(d.userEnteredFormat.value) <==> k in Keys(cell.entries) && k != "value"))
            && (!cell.Hash? ==> d.userEnteredValue == ExtendedValueFor(cell) && d.userEnteredFormat.None?)
  {
    if cell.Hash? {
      ExceptKeepsWellFormed(cell.entries, "value");
      ExceptKeys(cell.entries, "value");
    }
  }
}

/**
 * The column derivation and cell formatting of the DynamicVirtualizedTable
 * component: which columns a dataset gets, how each column is labelled,
 * aligned and sized, what text each cell shows, and when the component shows
 * its "No data available" placeholder instead of a table.
 */
module DynamicVirtualizedTable {
  import opened JsRuntime

  /**
   * One data record. The pairs stand for the record's own properties in the
   * order `Object.keys` enumerates them.
   */
  type Record = seq<(string, Value)>

  /** `Object.keys(r)`. */
  function Keys(r: Record): (keys: seq<string>)
    ensures |keys| == |r|
    ensures forall i :: 0 <= i < |r| ==> keys[i] == r[i].0
  {
    if r == [] then [] else [r[0].0] + Keys(r[1..])
  }

  predicate Distinct(xs: seq<string>) {
    forall i, j :: 0 <= i < j < |xs| ==> xs[i] != xs[j]
  }

  /** A JavaScript object never has two properties of the same name. */
  predicate WellFormed(r: Record) {
    Distinct(Keys(r))
  }

  /** `r[key]`: the value of the first property named `key`, or `undefined`. */
  function Get(r: Record, key: string): (v: Value)
    ensures key !in Keys(r) ==> v == Undefined
    ensures key in Keys(r) ==> (key, v) in r
  {
    if r == [] then Undefined
    else if r[0].0 == key then r[0].1
    else
      assert Keys(r) == [r[0].0] + Keys(r[1..]);
      Get(r[1..], key)
  }

  /** `Partial<ColumnData>` as a per-column override: each field may be absent. */
  datatype Override = Override(labelText: Option<string>, numeric: Option<bool>, width: Option<int>)

  /** The `{}` a missing override falls back to. */
  const NoOverride := Override(None, None, None)

  /** `ColumnData` as `deriveColumns` produces it: `numeric` and `width` are always set. */
  datatype Column = Column(dataKey: string, labelText: string, numeric: bool, width: int)

  /** `columnConfig[key] || {}`. */
  function OverrideFor(columnConfig: map<string, Override>, key: string): (o: Override)
    ensures key !in columnConfig ==> o == NoOverride
    ensures key in columnConfig ==> o == columnConfig[key]
  {
    if key in columnConfig then columnConfig[key] else NoOverride
  }

  /**
   * `Object.keys(firstItem).filter((key) => !excludeKeys.includes(key))`:
   * the keys in their original order, without the excluded ones.
   */
  function Exclude(keys: seq<string>, excludeKeys: seq<string>): (kept: seq<string>)
    ensures |kept| <= |keys|
    ensures forall k :: k in kept <==> k in keys && k !in excludeKeys
    ensures IsSubsequence(kept, keys)
    ensures Distinct(keys) ==> Distinct(kept)
    ensures excludeKeys == [] ==> kept == keys
  {
    if keys == [] then []
    else if keys[0] in excludeKeys then Exclude(keys[1..], excludeKeys)
    else [keys[0]] + Exclude(keys[1..], excludeKeys)
  }

  /** `a` is `b` with some elements left out and the rest kept in order. */
  predicate IsSubsequence(a: seq<string>, b: seq<string>)
    decreases |b|
  {
    if a == [] then true
    else if b == [] then false
    else (a[0] == b[0] && IsSubsequence(a[1..], b[1..])) || IsSubsequence(a, b[1..])
  }

  /**
   * The descriptor `deriveColumns` builds for one key of the first record:
   * the label is the override when it is a non-empty string, else the key
   * with its first character upper-cased; the numeric flag is the override
   * whenever it is given, `false` included, else whether the first record's
   * value is a number; the width is the override when it is a non-zero
   * number, else the default.
   */
  function MakeColumn(first: Record, key: string, columnConfig: map<string, Override>, defaultColumnWidth: int): (c: Column)
    ensures c.dataKey == key
    ensures var o := OverrideFor(columnConfig, key);
      && (o.labelText.Some? && o.labelText.value != "" ==> c.labelText == o.labelText.value)
      && (o.labelText.None? || o.labelText == Some("") ==> c.labelText == Capitalize(key))
      && (o.numeric.Some? ==> c.numeric == o.numeric.value)
      && (o.numeric.None? ==> c.numeric == Get(first, key).Num?)
      && (o.width.Some? && o.width.value != 0 ==> c.width == o.width.value)
      && (o.width.None? || o.width == Some(0) ==> c.width == defaultColumnWidth)
  {
    var config := OverrideFor(columnConfig, key);
    var value := Get(first, key);
    var isNumeric := TypeOf(value) == "number";
    Column(
      key,
      OrString(config.labelText, Capitalize(key)),
      if config.numeric != None then config.numeric.value else isNumeric,
      OrNumber(config.width, defaultColumnWidth))
  }

  function ColumnKeys(columns: seq<Column>): (keys: seq<string>)
    ensures |keys| == |columns|
    ensures forall i :: 0 <= i < |columns| ==> keys[i] == columns[i].dataKey
  {
    seq(|columns|, i requires 0 <= i < |columns| => columns[i].dataKey)
  }

  /**
   * `deriveColumns`: one descriptor per key of the first record that is not
   * excluded, in the first record's key order. Missing or empty data gives
   * no columns.
   */
  function DeriveColumns(data: Option<seq<Record>>, excludeKeys: seq<string>, columnConfig: map<string, Override>, defaultColumnWidth: int): (columns: seq<Column>)
    ensures data.None? || data.value == [] ==> columns == []
    ensures data.Some? && data.value != [] ==>
      ColumnKeys(columns) == Exclude(Keys(data.value[0]), excludeKeys)
    ensures forall i :: 0 <= i < |columns| ==>
      && columns[i].dataKey !in excludeKeys
      && data.Some?
      && columns[i].dataKey in Keys(data.value[0])
      && columns[i] == MakeColumn(data.value[0], columns[i].dataKey, columnConfig, defaultColumnWidth)
  {
    if data.None? || |data.value| == 0 then []
    else
      var firstItem := data.value[0];
      var keys := Exclude(Keys(firstItem), excludeKeys);
      var columns := ColumnsFor(firstItem, keys, columnConfig, defaultColumnWidth);
      assert forall i :: 0 <= i < |columns| ==> columns[i].dataKey == keys[i] && keys[i] in keys;
      columns
  }

  /** `keys.map(...)`: the descriptor of each kept key, in order. */
  function ColumnsFor(first: Record, keys: seq<string>, columnConfig: map<string, Override>, defaultColumnWidth: int): (columns: seq<Column>)
    ensures ColumnKeys(columns) == keys
    ensures forall i :: 0 <= i < |keys| ==> columns[i] == MakeColumn(first, keys[i], columnConfig, defaultColumnWidth)
  {
    seq(|keys|, i requires 0 <= i < |keys| => MakeColumn(first, keys[i], columnConfig, defaultColumnWidth))
  }

  // ---------------------------------------------------------------------
  // Cells

  datatype Align = Left | Right

  /** A header cell: its React key, alignment, text and width style. */
  datatype HeaderCell = HeaderCell(key: string, align: Align, labelText: string, width: int)

  /** A body cell: its React key, alignment and text. */
  datatype BodyCell = BodyCell(key: string, align: Align, text: string)

  /** `column.numeric || false ? 'right' : 'left'`. */
  function AlignOf(column: Column): (a: Align)
    ensures a == Right <==> column.numeric
  {
    if column.numeric || false then Right else Left
  }

  /** `cellValue !== undefined ? String(cellValue) : ''`. */
  function CellText(v: Value): (text: string)
    ensures v.Undefined? ==> text == ""
    ensures !v.Undefined? ==> text == ToStr(v)
  {
    if v != Undefined then ToStr(v) else ""
  }

  /** `fixedHeaderContent`: one header cell per column, in column order. */
  function HeaderCells(columns: seq<Column>): (cells: seq<HeaderCell>)
    ensures |cells| == |columns|
    ensures forall i :: 0 <= i < |columns| ==>
      && cells[i].key == columns[i].dataKey
      && (cells[i].align == Right <==> columns[i].numeric)
      && cells[i].labelText == columns[i].labelText
      && cells[i].width == columns[i].width
  {
    seq(|columns|, i requires 0 <= i < |columns| =>
      HeaderCell(columns[i].dataKey, AlignOf(columns[i]), columns[i].labelText, columns[i].width))
  }

  /** `rowContent`: one body cell per column, in column order. */
  function RowCells(row: Record, columns: seq<Column>): (cells: seq<BodyCell>)
    ensures |cells| == |columns|
    ensures forall i :: 0 <= i < |columns| ==>
      && cells[i].key == columns[i].dataKey
      && (cells[i].align == Right <==> columns[i].numeric)
      && (columns[i].dataKey !in Keys(row) ==> cells[i].text == "")
      && (Get(row, columns[i].dataKey).Undefined? ==> cells[i].text == "")
      && (!Get(row, columns[i].dataKey).Undefined? ==> cells[i].text == ToStr(Get(row, columns[i].dataKey)))
  {
    seq(|columns|, i requires 0 <= i < |columns| =>
      BodyCell(columns[i].dataKey, AlignOf(columns[i]), CellText(Get(row, columns[i].dataKey))))
  }

  // ---------------------------------------------------------------------
  // The component

  /** The props the component reads; `height` and `width` only size the panel. */
  datatype Props = Props(
    data: Option<seq<Record>>,
    excludeKeys: Option<seq<string>>,
    columnConfig: Option<map<string, Override>>,
    defaultColumnWidth: Option<int>)

  const DefaultColumnWidth := 100
  const NoDataMessage := "No data available"

  /**
   * What the component renders: a thrown error, the placeholder panel, or a
   * virtualized table given its header cells and the cells of every row.
   */
  datatype View =
    | Crash
    | Placeholder(message: string)
    | Table(header: seq<HeaderCell>, rows: seq<seq<BodyCell>>)

  /**
   * The columns for the props, after the destructuring defaults are applied:
   * an omitted exclusion list excludes nothing, an omitted override map
   * overrides nothing, and an omitted default width is 100.
   */
  function PropsColumns(props: Props): (columns: seq<Column>)
    ensures props.data.None? ==> columns == []
    ensures props.data.Some? && props.data.value != [] && props.excludeKeys.None? ==>
      ColumnKeys(columns) == Keys(props.data.value[0])
    ensures props.defaultColumnWidth.None? ==>
      forall i :: 0 <= i < |columns| ==>
        var o := if props.columnConfig.Some? then OverrideFor(props.columnConfig.value, columns[i].dataKey) else NoOverride;
        o.width.None? || o.width == Some(0) ==> columns[i].width == 100
    ensures props.data.Some? && props.data.value != [] && props.columnConfig.None? ==>
      forall i :: 0 <= i < |columns| ==>
        && columns[i].labelText == Capitalize(columns[i].dataKey)
        && columns[i].numeric == Get(props.data.value[0], columns[i].dataKey).Num?
        && columns[i].width == (if props.defaultColumnWidth.Some? then props.defaultColumnWidth.value else 100)
  {
    DeriveColumns(
      props.data,
      if props.excludeKeys.Some? then props.excludeKeys.value else [],
      if props.columnConfig.Some? then props.columnConfig.value else map[],
      if props.defaultColumnWidth.Some? then props.defaultColumnWidth.value else DefaultColumnWidth)
  }

  /** The render once `data` is known to be an array. */
  function RenderData(data: seq<Record>, columns: seq<Column>): (view: View)
    ensures view.Placeholder? <==> data == [] || columns == []
    ensures view.Table? <==> data != [] && columns != []
    ensures view.Placeholder? ==> view.message == NoDataMessage
    ensures view.Table? ==>
      && view.header == HeaderCells(columns)
      && |view.rows| == |data|
      && forall i :: 0 <= i < |data| ==> view.rows[i] == RowCells(data[i], columns)
  {
    if |data| == 0 || |columns| == 0 then Placeholder(NoDataMessage)
    else Table(HeaderCells(columns), seq(|data|, i requires 0 <= i < |data| => RowCells(data[i], columns)))
  }

  /**
   * The component as written: the memo dependency list reads `data.length`
   * before either `!data` guard runs, so missing data throws.
   */
  function RenderAsWritten(props: Props): (view: View)
    ensures view == Crash <==> props.data.None?
  {
    if props.data.None? then Crash
    else RenderData(props.data.value, PropsColumns(props))
  }

  /**
   * The component as its guards intend it: missing data, empty data or no
   * columns show the placeholder; otherwise the table gets the whole dataset.
   */
  function Render(props: Props): (view: View)
    ensures view != Crash
    ensures view.Placeholder? <==> props.data.None? || props.data.value == [] || PropsColumns(props) == []
    ensures view.Placeholder? ==> view.message == NoDataMessage
    ensures view.Table? ==>
      && props.data.Some?
      && view.header == HeaderCells(PropsColumns(props))
      && |view.rows| == |props.data.value|
      && forall i :: 0 <= i < |view.rows| ==> view.rows[i] == RowCells(props.data.value[i], PropsColumns(props))
  {
    if props.data.None? then Placeholder(NoDataMessage)
    else RenderData(props.data.value, PropsColumns(props))
  }
}

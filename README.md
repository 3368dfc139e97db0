# DynamicVirtualizedTable: column derivation and cell formatting

A Dafny model of the logic inside the `DynamicVirtualizedTable` React
component. The component shows a list of records as a virtualized table. It
derives its columns from the first record. The model covers:

- `deriveColumns`: which keys of the first record become columns, in what
  order, and how each column's label, numeric flag and width are chosen from
  the per-column override, the first record's value and the default width;
- the header and row callbacks: one cell per column, right-aligned exactly
  when the column is numeric, with the text `""` for an absent or `undefined`
  field and `String(value)` otherwise;
- the empty-state guard: the "No data available" placeholder appears exactly
  when the data is missing or empty or no column was derived.

Files:

- `js_runtime.dfy` (module `JsRuntime`): the JavaScript pieces the component
  relies on. Values with their `typeof` tag, `String(v)` (integers are
  written in plain decimal, which matches JavaScript below 10^21), ASCII upper-casing of a key's first character, and the
  `||` fallback for strings (`""` is falsy) and numbers (`0` is falsy).
- `dynamic_virtualized_table.dfy` (module `DynamicVirtualizedTable`): records,
  overrides, column descriptors, `deriveColumns`, the cells, and the render
  decision.
- `table_properties.dfy` (module `TableProperties`): lemmas over whole inputs,
  and worked examples.

A record is a sequence of `(key, value)` pairs in `Object.keys` order.
`data` is an `Option`, because the code tests `!data`. An override is three
optional fields. JavaScript objects never repeat a key; the lemmas that need
this assume `WellFormed(record)`.

## Model

| member | source | states |
|---|---|---|
| `DynamicVirtualizedTable.Keys` | app/components/DynamicVirtualizedTable/DynamicVirtualizedTable.tsx:57 | one key per property, the i-th key being the i-th property's name |
| `DynamicVirtualizedTable.Get` | app/components/DynamicVirtualizedTable/DynamicVirtualizedTable.tsx:119 | a key the record lacks reads as `undefined`; a key it has reads as a value stored under that key |
| `DynamicVirtualizedTable.OverrideFor` | app/components/DynamicVirtualizedTable/DynamicVirtualizedTable.tsx:62 | a key with no entry in the config gets the empty override `{}`, otherwise its own entry |
| `DynamicVirtualizedTable.Exclude` | app/components/DynamicVirtualizedTable/DynamicVirtualizedTable.tsx:57-59 | the kept keys are exactly the keys not in the exclusion list, kept in their original order (a subsequence); no repeats are introduced |
| `DynamicVirtualizedTable.MakeColumn` | app/components/DynamicVirtualizedTable/DynamicVirtualizedTable.tsx:61-71 | label = a non-empty override label, else the key with its first character upper-cased; numeric = the override whenever given (`false` included), else whether the first record's value is a number; width = a non-zero override width, else the default |
| `DynamicVirtualizedTable.ColumnKeys` | app/components/DynamicVirtualizedTable/DynamicVirtualizedTable.tsx:67 | the i-th key is the i-th column's `dataKey` |
| `DynamicVirtualizedTable.DeriveColumns` | app/components/DynamicVirtualizedTable/DynamicVirtualizedTable.tsx:48-73 | missing or empty data gives no columns; otherwise the column keys are the first record's keys with the excluded ones filtered out, in order; no column key is excluded and each is a key of the first record |
| `DynamicVirtualizedTable.AlignOf` | app/components/DynamicVirtualizedTable/DynamicVirtualizedTable.tsx:102 | a cell aligns right exactly when its column is numeric |
| `DynamicVirtualizedTable.CellText` | app/components/DynamicVirtualizedTable/DynamicVirtualizedTable.tsx:125 | `undefined` shows as `""`; every other value shows as its string form |
| `DynamicVirtualizedTable.HeaderCells` | app/components/DynamicVirtualizedTable/DynamicVirtualizedTable.tsx:95-112 | one header cell per column, in column order, keyed by the column key, right-aligned iff numeric, showing the label, sized by the width |
| `DynamicVirtualizedTable.RowCells` | app/components/DynamicVirtualizedTable/DynamicVirtualizedTable.tsx:114-133 | one body cell per column, in column order, right-aligned iff numeric; a field the row lacks or holds as `undefined` shows `""`, any other shows `String(value)` |
| `DynamicVirtualizedTable.PropsColumns` | app/components/DynamicVirtualizedTable/DynamicVirtualizedTable.tsx:75-93 | missing data gives no columns; an omitted exclusion list makes every key of the first record a column, in order; an omitted default width gives width 100 to every column without a non-zero override width; an omitted override map gives every column the capitalised key as label, the first record's `typeof` as numeric flag and the default width |
| `DynamicVirtualizedTable.RenderData` | app/components/DynamicVirtualizedTable/DynamicVirtualizedTable.tsx:135-160 | placeholder iff the data or the columns are empty, with the message "No data available"; a table iff both are non-empty, with the header cells and one row of cells per record |
| `DynamicVirtualizedTable.RenderAsWritten` | app/components/DynamicVirtualizedTable/DynamicVirtualizedTable.tsx:84-93 | the component throws exactly when `data` is missing |
| `DynamicVirtualizedTable.Render` | app/components/DynamicVirtualizedTable/DynamicVirtualizedTable.tsx:135-160 | never throws; placeholder iff the data is missing or empty or no column was derived; otherwise the table's rows are the cells of every record, in order |
| `JsRuntime.TypeOf` | app/components/DynamicVirtualizedTable/DynamicVirtualizedTable.tsx:64 | the tag is "number" exactly for numbers and "undefined" exactly for `undefined`; functions, bigints and symbols carry their own tags |
| `JsRuntime.ToStr` | app/components/DynamicVirtualizedTable/DynamicVirtualizedTable.tsx:125 | a string converts to itself; an integral number converts to its plain decimal form |
| `JsRuntime.NatToDecimal` | app/components/DynamicVirtualizedTable/DynamicVirtualizedTable.tsx:125 | the decimal form of a number is a non-empty digit string with no leading zero |
| `JsRuntime.DecimalRoundTrip` | app/components/DynamicVirtualizedTable/DynamicVirtualizedTable.tsx:125 | reading the decimal form back gives the number |
| `JsRuntime.IntToDecimal` | app/components/DynamicVirtualizedTable/DynamicVirtualizedTable.tsx:125 | a negative number is written as `-` then the digits of its magnitude; either way the digits read back as the magnitude |
| `JsRuntime.UpperChar` | app/components/DynamicVirtualizedTable/DynamicVirtualizedTable.tsx:68 | the result is never a lower-case letter; lower-case letters map to their capitals, everything else is unchanged |
| `JsRuntime.Capitalize` | app/components/DynamicVirtualizedTable/DynamicVirtualizedTable.tsx:68 | same length; the first character is upper-cased and the rest is unchanged; `""` stays `""` |
| `JsRuntime.OrString` | app/components/DynamicVirtualizedTable/DynamicVirtualizedTable.tsx:68 | `a \|\| b` on a string: a present, non-empty `a` wins; absent or `""` falls back to `b` |
| `JsRuntime.OrNumber` | app/components/DynamicVirtualizedTable/DynamicVirtualizedTable.tsx:70 | `a \|\| b` on a number: a present, non-zero `a` wins; absent or `0` falls back to `b` |
| `TableProperties.ExcludeCount` | app/components/DynamicVirtualizedTable/DynamicVirtualizedTable.tsx:57-59 | with distinct keys, filtering removes exactly the excluded keys that are present |
| `TableProperties.SubsequenceDetermined` | app/components/DynamicVirtualizedTable/DynamicVirtualizedTable.tsx:57-59 | two order-preserving selections from a repeat-free list that keep the same elements are equal |
| `TableProperties.ExcludeIsTheOrderedSelection` | app/components/DynamicVirtualizedTable/DynamicVirtualizedTable.tsx:57-59 | the filter is the only order-preserving selection of the keys that keeps exactly the non-excluded ones |
| `TableProperties.ColumnCount` | app/components/DynamicVirtualizedTable/DynamicVirtualizedTable.tsx:54-61 | the column count is the first record's key count less the excluded keys it has |
| `TableProperties.ColumnKeysAreOrderedSelection` | app/components/DynamicVirtualizedTable/DynamicVirtualizedTable.tsx:56-61 | the column keys are the non-excluded keys of the first record, each once, in that record's order |
| `TableProperties.EveryKeptKeyHasColumn` | app/components/DynamicVirtualizedTable/DynamicVirtualizedTable.tsx:57-61 | every key of the first record that is not excluded has a column |
| `TableProperties.OnlyFirstRecordConsulted` | app/components/DynamicVirtualizedTable/DynamicVirtualizedTable.tsx:56-63 | later records never change the columns; every column key is a key of the first record |
| `TableProperties.ColumnPolicies` | app/components/DynamicVirtualizedTable/DynamicVirtualizedTable.tsx:62-71 | each derived column follows the label, numeric and width policies, read from the first record and the column's override |
| `TableProperties.ColumnKeysDistinct` | app/components/DynamicVirtualizedTable/DynamicVirtualizedTable.tsx:100 | with a well-formed first record no two columns share a key, so the cells' React keys are unique |
| `TableProperties.ExplicitNumericDecidesAlignment` | app/components/DynamicVirtualizedTable/DynamicVirtualizedTable.tsx:69-123 | an explicit numeric override aligns the header and every row cell of that column (`false` left, `true` right) whatever the first record holds |
| `TableProperties.AbsentFieldRendersBlank` | app/components/DynamicVirtualizedTable/DynamicVirtualizedTable.tsx:119-125 | a row lacking a column's field shows an empty cell |
| `TableProperties.PresentFieldRendersString` | app/components/DynamicVirtualizedTable/DynamicVirtualizedTable.tsx:119-125 | a row holding a value other than `undefined` for a column shows that value's string form |
| `TableProperties.GetFindsTheValue` | app/components/DynamicVirtualizedTable/DynamicVirtualizedTable.tsx:119 | in a record without repeated keys, looking up a key gives the value stored under it |
| `TableProperties.PlaceholderIffAllKeysExcluded` | app/components/DynamicVirtualizedTable/DynamicVirtualizedTable.tsx:135 | with non-empty data, the placeholder appears exactly when every key of the first record is excluded |
| `TableProperties.DefaultsApplied` | app/components/DynamicVirtualizedTable/DynamicVirtualizedTable.tsx:79-81 | with the props omitted, the column keys are exactly the first record's keys in order, and each column is labelled by its capitalised key, numeric by its first value, 100 wide |
| `TableProperties.MissingDataCrashes` | app/components/DynamicVirtualizedTable/DynamicVirtualizedTable.tsx:88 | missing data throws in the code as written but shows the placeholder in the intended behaviour; with data present the two agree |
| `TableProperties.DefaultLabelExamples` | app/components/DynamicVirtualizedTable/DynamicVirtualizedTable.tsx:68 | "age" is labelled "Age", "" stays "", "Name" stays "Name" |
| `TableProperties.ExampleExcludeId` | app/components/DynamicVirtualizedTable/DynamicVirtualizedTable.tsx:48-73 | `[{id:1,name:"A"},{id:2,name:"B"}]`, excluding `id`, width 50: one column `name`/"Name", left-aligned, 50 wide; rows "A" and "B" |
| `TableProperties.ExampleEmptyData` | app/components/DynamicVirtualizedTable/DynamicVirtualizedTable.tsx:135-148 | an empty dataset shows "No data available" |
| `TableProperties.ExampleDifferentShapes` | app/components/DynamicVirtualizedTable/DynamicVirtualizedTable.tsx:114-133 | `[{a:1},{b:2}]`: one right-aligned column "A"; the rows show "1" and "" |

## Findings

| source | as written | input that shows it | evidently intended | confidence | as-written member | corrected member |
|---|---|---|---|---|---|---|
| app/components/DynamicVirtualizedTable/DynamicVirtualizedTable.tsx:88 | the memo dependency list reads `data.length` before the `!data` guards at lines 54 and 135 can run, so it throws a TypeError | `data` is `undefined` or `null` | missing data shows the "No data available" placeholder, as both `!data` guards mean | high (not executed) | `DynamicVirtualizedTable.RenderAsWritten` (with `TableProperties.MissingDataCrashes`) | `DynamicVirtualizedTable.Render` (with `TableProperties.MissingDataCrashes`) |

Both `!data` guards show that an absent dataset is meant to show the
placeholder. The code throws before either guard runs. `RenderAsWritten`
follows the code, and `Render` follows the guards' evident intent.

## Left out

- React, JSX, the MUI components and all styling (`sx`, `className`, the
  `Paper` sizing). The `height` and `width` props only size the panel, so
  they are not in `Props`.
- `TableVirtuoso` windowing and scrolling. The model gives the cells of every
  row. Which rows are mounted at a given moment is up to the library.
- The `React.useMemo` and `useCallback` caching. The model recomputes the
  columns on every render. It does not model that the cache key
  `excludeKeys.join(',')` is the same for `["a,b"]` and `["a", "b"]`. Switching
  between those two lists while the first record stays the same can
  therefore keep stale columns.
- `JsRuntime.Value`: numbers carry an integer. Non-integral numbers, `NaN` and
  the infinities are not modelled. In particular a `NaN` override width is
  falsy and falls back to the default, but the model has no `NaN`. Objects,
  arrays, functions, bigints and symbols all fall in `Obj`, tagged with
  their kind. None of them has the `typeof` tag "number".
- `JsRuntime.ToStr`: an `Obj` always converts to the text it carries. In
  JavaScript `String(v)` throws a TypeError for an object with no primitive
  conversion, such as `Object.create(null)` or an object whose `toString`
  throws. A row cell holding such a value makes the render throw, and
  `CellText` does not model that.
- `JsRuntime.IntToDecimal`: every integer is written in plain decimal.
  JavaScript writes magnitudes of 10^21 and above in exponent form, so
  `String(1e21)` is `"1e+21"`, while the model gives the 22 digits. The model
  agrees with JavaScript only below 10^21.
- `JsRuntime.UpperChar`: only ASCII letters are upper-cased. Unicode
  `toUpperCase` (for example `ß` becoming `SS`, which changes the length) is
  not modelled.
- `Object.keys` puts integer-like keys first, in ascending order. The model
  takes the record's pair order as the enumeration order and does not
  reorder.
- `DynamicVirtualizedTable.Get` sees only a record's own properties. In
  JavaScript, `row[key]` also finds inherited properties. For example, a row
  without its own `toString` shows the text of the inherited function in a
  `toString` column, where the model shows `""`. Looking up a `columnConfig`
  entry can also reach inherited properties. Those carry none of `label`,
  `numeric` or `width`, so the result is the same as `{}`.
- An override whose `numeric` is `null` or not a boolean at run time is
  outside the declared types and is not modelled.

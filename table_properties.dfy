/**
 * Properties of the column derivation and of the rendered view, stated over
 * whole inputs: which keys become columns and in what order, how many there
 * are, how overrides and defaults decide each descriptor, how cells are
 * aligned and filled, and when the placeholder appears.
 */
module TableProperties {
  import opened JsRuntime
  import opened DynamicVirtualizedTable

  // ---------------------------------------------------------------------
  // Key filtering

  /** The keys that `excludeKeys` actually removes from `keys`. */
  function ExcludedPresent(keys: seq<string>, excludeKeys: seq<string>): set<string> {
    set k | k in keys && k in excludeKeys
  }

  /**
   * With distinct keys, filtering removes exactly one entry per excluded key
   * that is present.
   */
  lemma {:induction false} ExcludeCount(keys: seq<string>, excludeKeys: seq<string>)
    requires Distinct(keys)
    ensures |Exclude(keys, excludeKeys)| == |keys| - |ExcludedPresent(keys, excludeKeys)|
  {
    if keys != [] {
      var head, tail := keys[0], keys[1..];
      assert Distinct(tail);
      ExcludeCount(tail, excludeKeys);
      assert head !in tail by {
        forall j | 0 <= j < |tail| ensures tail[j] != head {
          assert tail[j] == keys[j + 1];
        }
      }
      assert head !in ExcludedPresent(tail, excludeKeys);
      if head in excludeKeys {
        assert ExcludedPresent(keys, excludeKeys) == ExcludedPresent(tail, excludeKeys) + {head};
      } else {
        assert ExcludedPresent(keys, excludeKeys) == ExcludedPresent(tail, excludeKeys);
      }
    }
  }

  /**
   * In a list without repeats, an order-preserving selection is fixed by the
   * set of elements it keeps.
   */
  lemma {:induction false} SubsequenceDetermined(a: seq<string>, c: seq<string>, b: seq<string>)
    requires Distinct(b)
    requires IsSubsequence(a, b) && IsSubsequence(c, b)
    requires forall x :: x in a <==> x in c
    ensures a == c
    decreases |b|
  {
    if a == [] || c == [] {
      NoMembersEmpty(a);
      NoMembersEmpty(c);
    } else {
      var tail := b[1..];
      assert Distinct(tail);
      SubsequenceMembers(a, b);
      SubsequenceMembers(c, b);
      if b[0] in a {
        HeadKept(a, b);
        HeadKept(c, b);
        assert forall x :: x in a[1..] <==> x in a && x != b[0] by { DistinctTail(a, b); }
        assert forall x :: x in c[1..] <==> x in c && x != b[0] by { DistinctTail(c, b); }
        SubsequenceDetermined(a[1..], c[1..], tail);
        assert a == [a[0]] + a[1..] && c == [c[0]] + c[1..];
      } else {
        assert IsSubsequence(a, tail) && IsSubsequence(c, tail);
        SubsequenceDetermined(a, c, tail);
      }
    }
  }

  lemma NoMembersEmpty(s: seq<string>)
    ensures (forall x :: x !in s) ==> s == []
  {
    if s != [] {
      assert s[0] in s;
    }
  }

  /** Every element of a subsequence is an element of the whole. */
  lemma {:induction false} SubsequenceMembers(a: seq<string>, b: seq<string>)
    ensures IsSubsequence(a, b) ==> forall x :: x in a ==> x in b
    decreases |b|
  {
    if a != [] && IsSubsequence(a, b) {
      if a[0] == b[0] && IsSubsequence(a[1..], b[1..]) {
        SubsequenceMembers(a[1..], b[1..]);
        forall x | x in a ensures x in b {
          if x != a[0] { assert x in a[1..]; }
        }
      } else {
        SubsequenceMembers(a, b[1..]);
      }
    }
  }

  /**
   * When a subsequence of a repeat-free list contains the list's first
   * element, it starts with it and its rest is a subsequence of the list's rest.
   */
  lemma HeadKept(a: seq<string>, b: seq<string>)
    requires Distinct(b) && IsSubsequence(a, b) && a != [] && b != [] && b[0] in a
    ensures a[0] == b[0] && IsSubsequence(a[1..], b[1..])
  {
    SubsequenceMembers(a, b[1..]);
    assert b[0] !in b[1..] by {
      forall j | 0 <= j < |b[1..]| ensures b[1..][j] != b[0] {
        assert b[1..][j] == b[j + 1];
      }
    }
  }

  /** A subsequence of a repeat-free list has no repeats either. */
  lemma {:induction false} SubsequenceDistinct(a: seq<string>, b: seq<string>)
    requires Distinct(b) && IsSubsequence(a, b)
    ensures Distinct(a)
    decreases |b|
  {
    if a != [] {
      assert Distinct(b[1..]);
      if a[0] == b[0] && IsSubsequence(a[1..], b[1..]) {
        SubsequenceDistinct(a[1..], b[1..]);
        SubsequenceMembers(a[1..], b[1..]);
        assert b[0] !in b[1..] by {
          forall j | 0 <= j < |b[1..]| ensures b[1..][j] != b[0] {
            assert b[1..][j] == b[j + 1];
          }
        }
        forall i, j | 0 <= i < j < |a| ensures a[i] != a[j] {
          if i == 0 {
            assert a[j] == a[1..][j - 1];
          } else {
            assert a[i] == a[1..][i - 1] && a[j] == a[1..][j - 1];
          }
        }
      } else {
        SubsequenceDistinct(a, b[1..]);
      }
    }
  }

  /** Dropping the first element of a repeat-free selection removes just that element. */
  lemma DistinctTail(a: seq<string>, b: seq<string>)
    requires Distinct(b) && IsSubsequence(a, b) && a != []
    ensures forall x :: x in a[1..] <==> x in a && x != a[0]
  {
    SubsequenceDistinct(a, b);
    forall x | x in a[1..] ensures x != a[0] {
      var j :| 0 <= j < |a[1..]| && a[1..][j] == x;
      assert a[j + 1] == x;
    }
  }

  /**
   * The filter is the only order-preserving selection of `keys` that keeps
   * exactly the keys not in `excludeKeys`.
   */
  lemma ExcludeIsTheOrderedSelection(keys: seq<string>, excludeKeys: seq<string>, selection: seq<string>)
    requires Distinct(keys)
    requires IsSubsequence(selection, keys)
    requires forall k :: k in selection <==> k in keys && k !in excludeKeys
    ensures selection == Exclude(keys, excludeKeys)
  {
    SubsequenceDetermined(selection, Exclude(keys, excludeKeys), keys);
  }

  // ---------------------------------------------------------------------
  // Column derivation

  /**
   * The number of columns is the number of keys of the first record less the
   * excluded keys that record actually has.
   */
  lemma ColumnCount(data: seq<Record>, excludeKeys: seq<string>, columnConfig: map<string, Override>, defaultColumnWidth: int)
    requires data != [] && WellFormed(data[0])
    ensures |DeriveColumns(Some(data), excludeKeys, columnConfig, defaultColumnWidth)|
         == |data[0]| - |ExcludedPresent(Keys(data[0]), excludeKeys)|
  {
    var columns := DeriveColumns(Some(data), excludeKeys, columnConfig, defaultColumnWidth);
    assert |columns| == |ColumnKeys(columns)|;
    ExcludeCount(Keys(data[0]), excludeKeys);
  }

  /**
   * The column keys are the first record's non-excluded keys, each once, in
   * the first record's order: any order-preserving selection of those keys
   * is the column key list.
   */
  lemma ColumnKeysAreOrderedSelection(data: seq<Record>, excludeKeys: seq<string>, columnConfig: map<string, Override>, defaultColumnWidth: int, selection: seq<string>)
    requires data != [] && WellFormed(data[0])
    requires IsSubsequence(selection, Keys(data[0]))
    requires forall k :: k in selection <==> k in Keys(data[0]) && k !in excludeKeys
    ensures ColumnKeys(DeriveColumns(Some(data), excludeKeys, columnConfig, defaultColumnWidth)) == selection
    ensures Distinct(selection)
  {
    ExcludeIsTheOrderedSelection(Keys(data[0]), excludeKeys, selection);
  }

  /** Every non-excluded key of the first record gets a column. */
  lemma EveryKeptKeyHasColumn(data: seq<Record>, excludeKeys: seq<string>, columnConfig: map<string, Override>, defaultColumnWidth: int, key: string)
    requires data != [] && key in Keys(data[0]) && key !in excludeKeys
    ensures var columns := DeriveColumns(Some(data), excludeKeys, columnConfig, defaultColumnWidth);
      exists i :: 0 <= i < |columns| && columns[i].dataKey == key
  {
    var columns := DeriveColumns(Some(data), excludeKeys, columnConfig, defaultColumnWidth);
    var keys := ColumnKeys(columns);
    assert key in keys;
    var i :| 0 <= i < |keys| && keys[i] == key;
    assert columns[i].dataKey == key;
  }

  /**
   * Only the first record is consulted: the remaining records never change
   * the columns, so a key found only in later records never becomes one.
   */
  lemma OnlyFirstRecordConsulted(data: seq<Record>, excludeKeys: seq<string>, columnConfig: map<string, Override>, defaultColumnWidth: int)
    requires data != []
    ensures DeriveColumns(Some(data), excludeKeys, columnConfig, defaultColumnWidth)
         == DeriveColumns(Some(data[..1]), excludeKeys, columnConfig, defaultColumnWidth)
    ensures forall c :: c in DeriveColumns(Some(data), excludeKeys, columnConfig, defaultColumnWidth) ==> c.dataKey in Keys(data[0])
  {
    assert data[..1][0] == data[0];
    var columns := DeriveColumns(Some(data), excludeKeys, columnConfig, defaultColumnWidth);
    forall c | c in columns ensures c.dataKey in Keys(data[0]) {
      var i :| 0 <= i < |columns| && columns[i] == c;
    }
  }

  /**
   * The descriptor of each column follows the three policies, read from the
   * first record and the column's override.
   */
  lemma ColumnPolicies(data: seq<Record>, excludeKeys: seq<string>, columnConfig: map<string, Override>, defaultColumnWidth: int, i: int)
    requires data != []
    requires 0 <= i < |DeriveColumns(Some(data), excludeKeys, columnConfig, defaultColumnWidth)|
    ensures var c := DeriveColumns(Some(data), excludeKeys, columnConfig, defaultColumnWidth)[i];
      var o := if c.dataKey in columnConfig then columnConfig[c.dataKey] else NoOverride;
      && c.labelText == (if o.labelText.Some? && o.labelText.value != "" then o.labelText.value else Capitalize(c.dataKey))
      && c.numeric == (if o.numeric.Some? then o.numeric.value else Get(data[0], c.dataKey).Num?)
      && c.width == (if o.width.Some? && o.width.value != 0 then o.width.value else defaultColumnWidth)
  {
    var keys := Exclude(Keys(data[0]), excludeKeys);
    assert DeriveColumns(Some(data), excludeKeys, columnConfig, defaultColumnWidth)
        == ColumnsFor(data[0], keys, columnConfig, defaultColumnWidth);
  }

  /**
   * With distinct keys in the first record, no two columns share a key, so
   * the React keys of the header and body cells are unique.
   */
  lemma ColumnKeysDistinct(data: seq<Record>, excludeKeys: seq<string>, columnConfig: map<string, Override>, defaultColumnWidth: int)
    requires data != [] && WellFormed(data[0])
    ensures Distinct(ColumnKeys(DeriveColumns(Some(data), excludeKeys, columnConfig, defaultColumnWidth)))
  {
  }

  // ---------------------------------------------------------------------
  // Cells

  /**
   * An explicit numeric override decides the alignment of the column's header
   * cell and of its cell in every row, whatever the first record holds;
   * `false` aligns left, `true` aligns right.
   */
  lemma ExplicitNumericDecidesAlignment(data: seq<Record>, excludeKeys: seq<string>, columnConfig: map<string, Override>, defaultColumnWidth: int, key: string, row: Record)
    requires data != [] && key in columnConfig && columnConfig[key].numeric.Some?
    ensures var columns := DeriveColumns(Some(data), excludeKeys, columnConfig, defaultColumnWidth);
      forall i :: 0 <= i < |columns| && columns[i].dataKey == key ==>
        && (HeaderCells(columns)[i].align == Right <==> columnConfig[key].numeric.value)
        && (RowCells(row, columns)[i].align == Right <==> columnConfig[key].numeric.value)
  {
    var columns := DeriveColumns(Some(data), excludeKeys, columnConfig, defaultColumnWidth);
    forall i | 0 <= i < |columns| && columns[i].dataKey == key
      ensures columns[i].numeric == columnConfig[key].numeric.value
    {
      ColumnPolicies(data, excludeKeys, columnConfig, defaultColumnWidth, i);
    }
  }

  /** A row that lacks a column's field shows an empty cell for it. */
  lemma AbsentFieldRendersBlank(row: Record, columns: seq<Column>, i: int)
    requires 0 <= i < |columns| && columns[i].dataKey !in Keys(row)
    ensures RowCells(row, columns)[i].text == ""
  {
  }

  /** A present field that is not `undefined` shows its string form. */
  lemma PresentFieldRendersString(row: Record, columns: seq<Column>, i: int, v: Value)
    requires WellFormed(row) && 0 <= i < |columns|
    requires (columns[i].dataKey, v) in row && v != Undefined
    ensures RowCells(row, columns)[i].text == ToStr(v)
  {
    GetFindsTheValue(row, columns[i].dataKey, v);
  }

  /** In a well-formed record, the lookup of a key gives the value stored under it. */
  lemma GetFindsTheValue(row: Record, key: string, v: Value)
    requires WellFormed(row) && (key, v) in row
    ensures Get(row, key) == v
  {
    var j :| 0 <= j < |row| && row[j] == (key, v);
    assert Keys(row)[j] == key;
    var w := Get(row, key);
    var k :| 0 <= k < |row| && row[k] == (key, w);
    assert Keys(row)[j] == Keys(row)[k];
  }

  // ---------------------------------------------------------------------
  // The component

  /**
   * With data present and non-empty, the placeholder appears exactly when the
   * exclusion list removes every key of the first record.
   */
  lemma PlaceholderIffAllKeysExcluded(props: Props)
    requires props.data.Some? && props.data.value != []
    ensures var excludeKeys := if props.excludeKeys.Some? then props.excludeKeys.value else [];
      Render(props).Placeholder? <==> forall k :: k in Keys(props.data.value[0]) ==> k in excludeKeys
  {
    var excludeKeys := if props.excludeKeys.Some? then props.excludeKeys.value else [];
    var columns := PropsColumns(props);
    var kept := Exclude(Keys(props.data.value[0]), excludeKeys);
    assert ColumnKeys(columns) == kept;
    if columns == [] {
      assert kept == [];
    } else {
      assert kept[0] in kept;
      assert kept[0] in Keys(props.data.value[0]) && kept[0] !in excludeKeys;
    }
  }

  /**
   * Omitted props fall back to no exclusions, no overrides and a width of 100:
   * every key of the first record becomes a column, labelled by its
   * capitalised name, numeric when its first value is a number.
   */
  lemma DefaultsApplied(data: seq<Record>)
    requires data != []
    ensures var columns := PropsColumns(Props(Some(data), None, None, None));
      && ColumnKeys(columns) == Keys(data[0])
      && forall i :: 0 <= i < |columns| ==>
        && columns[i].dataKey == Keys(data[0])[i]
        && columns[i].labelText == Capitalize(columns[i].dataKey)
        && columns[i].numeric == Get(data[0], columns[i].dataKey).Num?
        && columns[i].width == 100
  {
  }

  /**
   * Missing data: the component as written throws before its guards run,
   * where the guards mean it to show the placeholder. With data present the
   * two agree.
   */
  lemma MissingDataCrashes(props: Props)
    ensures props.data.None? ==> RenderAsWritten(props) == Crash && Render(props) == Placeholder(NoDataMessage)
    ensures props.data.Some? ==> RenderAsWritten(props) == Render(props)
  {
  }

  // ---------------------------------------------------------------------
  // Worked examples

  /** The key "age" is labelled "Age"; the empty key keeps the empty label. */
  lemma DefaultLabelExamples()
    ensures Capitalize("age") == "Age"
    ensures Capitalize("") == ""
    ensures Capitalize("Name") == "Name"
  {
    assert Capitalize("age") == [UpperChar('a')] + "ge";
    assert Capitalize("Name") == [UpperChar('N')] + "ame";
  }

  /**
   * Two records with `id` excluded and a default width of 50: one column
   * `name`, labelled "Name", not numeric, 50 wide; rows show "A" and "B".
   */
  lemma ExampleExcludeId()
    ensures var data := [[("id", Num(1)), ("name", Str("A"))], [("id", Num(2)), ("name", Str("B"))]];
      Render(Props(Some(data), Some(["id"]), None, Some(50)))
      == Table([HeaderCell("name", Left, "Name", 50)],
               [[BodyCell("name", Left, "A")], [BodyCell("name", Left, "B")]])
  {
    var data := [[("id", Num(1)), ("name", Str("A"))], [("id", Num(2)), ("name", Str("B"))]];
    var props := Props(Some(data), Some(["id"]), None, Some(50));
    ExampleExcludeIdColumns(data);
    var columns := PropsColumns(props);
    assert Get(data[0], "name") == Str("A");
    assert Get(data[1], "name") == Str("B");
    assert HeaderCells(columns) == [HeaderCell("name", Left, "Name", 50)];
    assert RowCells(data[0], columns) == [BodyCell("name", Left, "A")];
    assert RowCells(data[1], columns) == [BodyCell("name", Left, "B")];
  }

  lemma ExampleExcludeIdColumns(data: seq<Record>)
    requires data == [[("id", Num(1)), ("name", Str("A"))], [("id", Num(2)), ("name", Str("B"))]]
    ensures PropsColumns(Props(Some(data), Some(["id"]), None, Some(50))) == [Column("name", "Name", false, 50)]
  {
    assert Keys(data[0]) == ["id", "name"];
    assert Exclude(["id", "name"], ["id"]) == ["name"];
    DefaultLabelExamples();
    var columns := DeriveColumns(Some(data), ["id"], map[], 50);
    assert columns == ColumnsFor(data[0], ["name"], map[], 50);
    assert MakeColumn(data[0], "name", map[], 50) == Column("name", "Name", false, 50);
  }

  /** An empty dataset shows the placeholder, not a table. */
  lemma ExampleEmptyData()
    ensures Render(Props(Some([]), None, None, None)) == Placeholder("No data available")
  {
  }

  /**
   * Records of different shapes, `{a: 1}` then `{b: 2}`: one right-aligned
   * column "A"; the second row shows an empty cell for it.
   */
  lemma ExampleDifferentShapes()
    ensures var data := [[("a", Num(1))], [("b", Num(2))]];
      Render(Props(Some(data), None, None, None))
      == Table([HeaderCell("a", Right, "A", 100)],
               [[BodyCell("a", Right, "1")], [BodyCell("a", Right, "")]])
  {
    var data := [[("a", Num(1))], [("b", Num(2))]];
    var props := Props(Some(data), None, None, None);
    assert Keys(data[0]) == ["a"];
    assert Exclude(["a"], []) == ["a"];
    assert Capitalize("a") == [UpperChar('a')];
    var columns := PropsColumns(props);
    assert columns == [Column("a", "A", true, 100)];
    assert Get(data[0], "a") == Num(1);
    assert Get(data[1], "a") == Undefined;
    assert IntToDecimal(1) == "1";
    assert HeaderCells(columns) == [HeaderCell("a", Right, "A", 100)];
    assert RowCells(data[0], columns) == [BodyCell("a", Right, "1")];
    assert RowCells(data[1], columns) == [BodyCell("a", Right, "")];
  }
}

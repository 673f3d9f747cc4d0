/**
 * `InsertStatement`: the six instruction templates and their priority, the column
 * list, the recursive VALUES rendering with its parenthesise-this-level flag, and
 * ON DUPLICATE KEY UPDATE. An insert never memoises its text, so every render
 * allocates fresh placeholders.
 */
module Insert {
  import opened Php
  import opened RawSql
  import opened Values
  import opened Render
  import opened Compiler

  /** A template: its verb and whether the rows come from a select (no VALUES keyword). */
  datatype Instruction = Instruction(verb: string, fromSelect: bool)

  /** `getInstruction`: select+replace, select+ignore, select, replace, ignore, plain. */
  function GetInstruction(hasSelect: bool, useIgnore: bool, useReplace: bool): (r: Instruction)
    ensures r.fromSelect <==> hasSelect
    ensures r.verb in {"INSERT INTO ", "INSERT IGNORE INTO ", "REPLACE INTO "}
  {
    if hasSelect && useReplace then Instruction("REPLACE INTO ", true)
    else if hasSelect && useIgnore then Instruction("INSERT IGNORE INTO ", true)
    else if hasSelect then Instruction("INSERT INTO ", true)
    else if useReplace then Instruction("REPLACE INTO ", false)
    else if useIgnore then Instruction("INSERT IGNORE INTO ", false)
    else Instruction("INSERT INTO ", false)
  }

  /** Replace beats ignore, with or without a select; a select only drops the VALUES keyword. */
  lemma InstructionPriority(hasSelect: bool, useIgnore: bool, useReplace: bool)
    ensures var i := GetInstruction(hasSelect, useIgnore, useReplace);
      && (i.fromSelect <==> hasSelect)
      && (i.verb == "REPLACE INTO " <==> useReplace)
      && (i.verb == "INSERT IGNORE INTO " <==> useIgnore && !useReplace)
      && (i.verb == "INSERT INTO " <==> !useIgnore && !useReplace)
  {
    assert "REPLACE INTO " != "INSERT IGNORE INTO " && "REPLACE INTO " != "INSERT INTO ";
    assert "INSERT IGNORE INTO "[8] != "INSERT INTO "[8];
  }

  /** `parenthesizeList`. */
  function Parenthesize(list: seq<string>): string {
    "(" + Implode(",", list) + ")"
  }

  /** Position of the first nested entry, or |data|. */
  function FirstNested(data: seq<(Key, Value)>): (r: nat)
    ensures r <= |data|
    ensures r < |data| ==> data[r].1.Nested?
    ensures forall j :: 0 <= j < r ==> !data[j].1.Nested?
  {
    if data == [] then 0 else if data[0].1.Nested? then 0 else 1 + FirstNested(data[1..])
  }

  /** A listed entry names its column: a numeric key by its string value, else by the key. */
  predicate ColumnOk(item: (Key, Value)) {
    !item.1.Sub? && (IsNumericKey(item.0) ==> item.1.Scalar? && item.1.scalar.Str?)
  }

  function ColumnName(item: (Key, Value)): string
    requires ColumnOk(item)
  {
    if IsNumericKey(item.0) then PrepareKey(item.1.scalar.s) else PrepareKey(item.0.name)
  }

  /**
   * Columns render without a TypeError: every entry visited before the first nested
   * one names a column, and so does the nested entry the listing descends into.
   * Sub-selects are not allowed among them.
   */
  predicate ColumnsOk(v: Value) {
    match v
    case Nested(items) =>
      var j := FirstNested(items);
      && (forall i :: 0 <= i < j ==> ColumnOk(items[i]))
      && (j < |items| ==> ColumnsOk(items[j].1))
    case _ => true
  }

  /** Rows render without a TypeError: every leaf is a scalar or a raw-SQL object. */
  predicate RowsOk(v: Value) {
    match v
    case Nested(items) => forall i :: 0 <= i < |items| ==> RowsOk(items[i].1)
    case Sub(_) => false
    case _ => true
  }

  /** The column names of a level without nested entries. */
  function ColumnNames(data: seq<(Key, Value)>): (r: seq<string>)
    requires forall i :: 0 <= i < |data| ==> ColumnOk(data[i])
    ensures |r| == |data|
    ensures forall i :: 0 <= i < |data| ==> r[i] == ColumnName(data[i])
  {
    if data == [] then [] else ColumnNames(data[..|data| - 1]) + [ColumnName(data[|data| - 1])]
  }

  /** `getInsertColumns`: the first nested entry gives the columns alone; else `(c1,...)` or ''. */
  function InsertColumns(data: seq<(Key, Value)>): (r: string)
    requires ColumnsOk(Nested(data))
    ensures r == "" || (r[0] == '(' && r[|r| - 1] == ')')
    ensures data == [] ==> r == ""
    decreases SizeItems(data)
  {
    var j := FirstNested(data);
    if j < |data| then
      SizeItemsBound(data, j);
      SizeOfValue(data[j].1);
      InsertColumns(data[j].1.items)
    else
      var columns := ColumnNames(data);
      if columns == [] then "" else Parenthesize(columns)
  }

  /** The rows part of VALUES: each level is parenthesised exactly when it holds a leaf. */
  function InsertValues(values: seq<(Key, Value)>, t: Table): (r: (string, Table))
    requires RowsOk(Nested(values))
    ensures r.1.parameterIndex == t.parameterIndex + ScalarCount(values)
    decreases SizeItems(values), 1
  {
    var (parts, flag, t1) := ValueParts(values, t);
    (if flag then Parenthesize(parts) else Implode(",", parts), t1)
  }

  /** The leaves of a row tree that are bound to placeholders. */
  function ScalarCount(values: seq<(Key, Value)>): nat
    decreases SizeItems(values)
  {
    if values == [] then 0
    else
      var last := values[|values| - 1].1;
      SizeOfValue(last);
      ScalarCount(values[..|values| - 1])
        + (if last.Nested? then ScalarCount(last.items) else if last.Scalar? then 1 else 0)
  }

  /** The loop of `getInsertValues`: the rendered parts and whether a leaf was met. */
  function ValueParts(values: seq<(Key, Value)>, t: Table): (r: (seq<string>, bool, Table))
    requires RowsOk(Nested(values))
    ensures |r.0| == |values|
    ensures r.1 <==> exists i :: 0 <= i < |values| && !values[i].1.Nested?
    ensures r.2.parameterIndex == t.parameterIndex + ScalarCount(values)
    decreases SizeItems(values), 0
  {
    if values == [] then ([], false, t)
    else
      var front := values[..|values| - 1];
      var last := values[|values| - 1].1;
      assert RowsOk(Nested(front)) by {
        forall i | 0 <= i < |front| ensures RowsOk(front[i].1) {
          assert front[i] == values[i];
        }
      }
      assert RowsOk(last);
      var (parts, flag, t1) := ValueParts(front, t);
      assert flag <==> exists i :: 0 <= i < |front| && !front[i].1.Nested? by {
        if flag {
          var i :| 0 <= i < |front| && !front[i].1.Nested?;
          assert values[i] == front[i];
        }
      }
      if last.Nested? then
        SizeOfValue(last);
        var (text, t2) := InsertValues(last.items, t1);
        (parts + [text], flag, t2)
      else
        var (text, t2) := Render.PrepareValue(last, t1);
        (parts + [text], true, t2)
  }

  /** ON DUPLICATE KEY UPDATE renders without a TypeError: string keys and bindable values. */
  predicate UpdatesOk(items: seq<(Key, Value)>) {
    forall i :: 0 <= i < |items| ==> items[i].0.Named? && (items[i].1.Scalar? || items[i].1.Raw?)
  }

  function UpdatePairs(items: seq<(Key, Value)>, t: Table): (r: (seq<string>, Table))
    requires UpdatesOk(items)
    ensures |r.0| == |items|
  {
    if items == [] then ([], t)
    else
      var last := items[|items| - 1];
      var (pairs, t1) := UpdatePairs(items[..|items| - 1], t);
      var (value, t2) := Render.PrepareValue(last.1, t1);
      (pairs + [PrepareKey(last.0.name) + "=" + value], t2)
  }

  /** `getUpdateValues`: nothing when empty. */
  function UpdateValues(items: seq<(Key, Value)>, t: Table): (r: (string, Table))
    requires UpdatesOk(items)
    ensures items == [] <==> r.0 == ""
  {
    if items == [] then ("", t)
    else
      var (pairs, t1) := UpdatePairs(items, t);
      ("\r\nON DUPLICATE KEY UPDATE " + Implode(",", pairs), t1)
  }

  predicate InsertOk(values: seq<(Key, Value)>, select: Option<Select>, updates: seq<(Key, Value)>) {
    && ColumnsOk(Nested(values))
    && (if select.Some? then SelectOk(select.value) else RowsOk(Nested(values)))
    && UpdatesOk(updates)
  }

  /** `getInsertValues`: the merged select when there is one, else the rows. */
  function InsertRows(values: seq<(Key, Value)>, select: Option<Select>, t: Table): (r: (string, Table))
    requires if select.Some? then SelectOk(select.value) else RowsOk(Nested(values))
    ensures r.1.parameterIndex >= t.parameterIndex
    ensures select.None? ==> r.1.parameterIndex == t.parameterIndex + ScalarCount(values)
  {
    if select.Some? then Render.MergeSubSelect(select.value, t) else InsertValues(values, t)
  }

  /** `__toString`: template, quoted table, columns, rows (or the merged select), updates. */
  function RenderInsert(table: string, values: seq<(Key, Value)>, select: Option<Select>,
                        updates: seq<(Key, Value)>, useIgnore: bool, useReplace: bool, t: Table): (r: (string, Table))
    requires InsertOk(values, select, updates)
  {
    var instruction := GetInstruction(select.Some?, useIgnore, useReplace);
    var (rows, t1) := InsertRows(values, select, t);
    var (tail, t2) := UpdateValues(updates, t1);
    (instruction.verb + PrepareKey(table) + InsertColumns(values)
       + (if instruction.fromSelect then " \r\n" else " \r\nVALUES ") + rows + tail + ";", t2)
  }

  /** The text starts with the template's verb and the quoted table and ends with a semicolon. */
  lemma InsertFramed(table: string, values: seq<(Key, Value)>, select: Option<Select>,
                     updates: seq<(Key, Value)>, useIgnore: bool, useReplace: bool, t: Table)
    requires InsertOk(values, select, updates)
    ensures var r := RenderInsert(table, values, select, updates, useIgnore, useReplace, t).0;
      var head := GetInstruction(select.Some?, useIgnore, useReplace).verb + PrepareKey(table);
      |r| > |head| && r[..|head|] == head && r[|r| - 1] == ';'
  {
    var instruction := GetInstruction(select.Some?, useIgnore, useReplace);
    var (rows, t1) := InsertRows(values, select, t);
    var (tail, t2) := UpdateValues(updates, t1);
    var separator := if instruction.fromSelect then " \r\n" else " \r\nVALUES ";
    Framed(instruction.verb + PrepareKey(table), InsertColumns(values), separator, rows, tail);
  }

  /** A flat row of scalars renders `(:pN,...,:pM)` with consecutive fresh names. */
  lemma {:induction false} FlatRow(values: seq<(Key, Value)>, t: Table)
    requires forall i :: 0 <= i < |values| ==> values[i].1.Scalar?
    ensures RowsOk(Nested(values))
    ensures ValueParts(values, t).0 == Names(t.parameterIndex, |values|)
    ensures values != [] ==>
      InsertValues(values, t).0 == Parenthesize(Names(t.parameterIndex, |values|))
    decreases |values|
  {
    if values != [] {
      var front := values[..|values| - 1];
      FlatRow(front, t);
      var (parts, flag, t1) := ValueParts(front, t);
      assert t1.parameterIndex == t.parameterIndex + |front| by {
        ScalarCountFlat(front);
      }
      NamesSnoc(t.parameterIndex, |front|);
    }
  }

  lemma RowsPrefix(values: seq<(Key, Value)>, n: nat)
    requires RowsOk(Nested(values)) && n <= |values|
    ensures RowsOk(Nested(values[..n]))
    ensures n > 0 ==> RowsOk(values[n - 1].1)
  {
    var front := values[..n];
    forall j | 0 <= j < n ensures RowsOk(front[j].1) {
      assert front[j] == values[j];
    }
  }

  lemma {:induction false} ScalarCountFlat(values: seq<(Key, Value)>)
    requires forall i :: 0 <= i < |values| ==> values[i].1.Scalar?
    ensures ScalarCount(values) == |values|
    decreases |values|
  {
    if values != [] {
      ScalarCountFlat(values[..|values| - 1]);
    }
  }

  /** With a select, the rows part is the merged select alone and no value is bound. */
  lemma InsertFromSelect(table: string, values: seq<(Key, Value)>, s: Select, useIgnore: bool, useReplace: bool, t: Table)
    requires InsertOk(values, Some(s), [])
    ensures var (sub, t1) := Render.MergeSubSelect(s, t);
      RenderInsert(table, values, Some(s), [], useIgnore, useReplace, t)
        == (GetInstruction(true, useIgnore, useReplace).verb + PrepareKey(table) + InsertColumns(values)
              + " \r\n" + sub + ";", t1)
  {
    var (sub, t1) := Render.MergeSubSelect(s, t);
    assert InsertRows(values, Some(s), t) == (sub, t1);
    assert UpdateValues([], t1) == ("", t1);
    var head := GetInstruction(true, useIgnore, useReplace).verb + PrepareKey(table) + InsertColumns(values) + " \r\n";
    assert head + sub + "" + ";" == head + sub + ";";
  }

  /**
   * Without a select, one render binds one placeholder per scalar leaf and per
   * scalar update value, so a second render starts where the first ended.
   */
  lemma InsertAllocates(table: string, values: seq<(Key, Value)>, updates: seq<(Key, Value)>,
                        useIgnore: bool, useReplace: bool, t: Table)
    requires InsertOk(values, None, updates)
    ensures RenderInsert(table, values, None, updates, useIgnore, useReplace, t).1.parameterIndex
      == t.parameterIndex + ScalarCount(values) + UpdateScalars(updates)
  {
    var (rows, t1) := InsertRows(values, None, t);
    UpdateValuesAllocate(updates, t1);
  }

  function UpdateScalars(items: seq<(Key, Value)>): nat {
    if items == [] then 0 else UpdateScalars(items[..|items| - 1]) + (if items[|items| - 1].1.Scalar? then 1 else 0)
  }

  lemma {:induction false} UpdateValuesAllocate(items: seq<(Key, Value)>, t: Table)
    requires UpdatesOk(items)
    ensures UpdatePairs(items, t).1.parameterIndex == t.parameterIndex + UpdateScalars(items)
    ensures UpdateValues(items, t).1.parameterIndex == t.parameterIndex + UpdateScalars(items)
  {
    if items != [] {
      UpdateValuesAllocate(items[..|items| - 1], t);
    }
  }

  class InsertStatement {
    const table: string
    const values: seq<(Key, Value)>
    const select: Option<Select>
    const updateValues: seq<(Key, Value)>
    const useIgnore: bool
    const useReplace: bool
    /** Never assigned, so the memo check of `__toString` never fires. */
    const query: Option<string> := None
    const placeholders: Placeholders

    constructor (table: string, values: seq<(Key, Value)>, select: Option<Select>,
                 updateValues: seq<(Key, Value)>, useIgnore: bool, useReplace: bool)
      ensures this.table == table && this.values == values && this.select == select
      ensures this.updateValues == updateValues && this.useIgnore == useIgnore && this.useReplace == useReplace
      ensures fresh(placeholders) && placeholders.State() == Table([], 0)
    {
      this.table := table;
      this.values := values;
      this.select := select;
      this.updateValues := updateValues;
      this.useIgnore := useIgnore;
      this.useReplace := useReplace;
      placeholders := new Placeholders([], 0);
    }

    /** `__toString`: each call renders and allocates again. */
    method ToString() returns (text: string)
      requires InsertOk(values, select, updateValues)
      modifies placeholders
      ensures (text, placeholders.State())
        == RenderInsert(table, values, select, updateValues, useIgnore, useReplace, old(placeholders.State()))
    {
      var instruction := GetInstruction(select.Some?, useIgnore, useReplace);
      var columns := GetInsertColumns(values);
      var rows := GetInsertValues(values, select);
      var tail := GetUpdateValues(updateValues);
      text := instruction.verb + PrepareKey(table) + columns
        + (if instruction.fromSelect then " \r\n" else " \r\nVALUES ") + rows + tail + ";";
    }

    /** `getInsertColumns`. */
    static method GetInsertColumns(data: seq<(Key, Value)>) returns (text: string)
      requires ColumnsOk(Nested(data))
      ensures text == InsertColumns(data)
      decreases SizeItems(data)
    {
      var columns: seq<string> := [];
      var i := 0;
      while i < |data|
        invariant 0 <= i <= |data|
        invariant i <= FirstNested(data)
        invariant columns == ColumnNames(data[..i])
      {
        if data[i].1.Nested? {
          assert FirstNested(data) == i;
          SizeItemsBound(data, i);
          SizeOfValue(data[i].1);
          assert InsertColumns(data) == InsertColumns(data[i].1.items);
          text := GetInsertColumns(data[i].1.items);
          return;
        }
        assert data[..i + 1][..i] == data[..i] && data[..i + 1][i] == data[i];
        columns := columns + [ColumnName(data[i])];
        i := i + 1;
      }
      assert data[..i] == data && FirstNested(data) == |data|;
      text := if columns == [] then "" else Parenthesize(columns);
    }

    /** `getInsertValues`: the merged select, or the rows with the parenthesise flag. */
    method GetInsertValues(values: seq<(Key, Value)>, select: Option<Select>) returns (text: string)
      requires if select.Some? then SelectOk(select.value) else RowsOk(Nested(values))
      modifies placeholders
      ensures (text, placeholders.State()) == InsertRows(values, select, old(placeholders.State()))
      decreases SizeItems(values), 1
    {
      if select.Some? {
        var merged;
        text, merged := placeholders.MergeSubSelect(select.value);
        return;
      }
      var parts: seq<string> := [];
      var flag := false;
      var i := 0;
      while i < |values|
        invariant 0 <= i <= |values|
        invariant RowsOk(Nested(values[..i]))
        invariant parts == ValueParts(values[..i], old(placeholders.State())).0
        invariant flag == ValueParts(values[..i], old(placeholders.State())).1
        invariant placeholders.State() == ValueParts(values[..i], old(placeholders.State())).2
      {
        var front := values[..i + 1];
        assert front[..i] == values[..i] && front[i] == values[i];
        RowsPrefix(values, i + 1);
        SizeItemsBound(values, i);
        var part;
        if values[i].1.Nested? {
          SizeOfValue(values[i].1);
          part := GetInsertValues(values[i].1.items, None);
        } else {
          flag := true;
          part := placeholders.PrepareValue(values[i].1);
        }
        parts := parts + [part];
        i := i + 1;
      }
      assert values[..i] == values;
      text := if flag then Parenthesize(parts) else Implode(",", parts);
    }

    /** `getUpdateValues`. */
    method GetUpdateValues(items: seq<(Key, Value)>) returns (text: string)
      requires UpdatesOk(items)
      modifies placeholders
      ensures (text, placeholders.State()) == UpdateValues(items, old(placeholders.State()))
    {
      if items == [] {
        return "";
      }
      var pairs: seq<string> := [];
      var i := 0;
      while i < |items|
        invariant 0 <= i <= |items|
        invariant (pairs, placeholders.State()) == UpdatePairs(items[..i], old(placeholders.State()))
      {
        assert items[..i + 1][..i] == items[..i];
        var value := placeholders.PrepareValue(items[i].1);
        pairs := pairs + [PrepareKey(items[i].0.name) + "=" + value];
        i := i + 1;
      }
      assert items[..i] == items;
      text := "\r\nON DUPLICATE KEY UPDATE " + Implode(",", pairs);
    }
  }

}

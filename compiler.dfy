/**
 * The placeholder table of one statement and the rendering methods that allocate
 * placeholders on it: `createParameter`, `prepareValue` and `mergeSubSelect` of
 * `AbstractStatement`, the predicate renderer of `WhereTrait`, the join renderer
 * of `JoinsTrait` and the `prepare*` helpers of `SelectStatement`. Each method
 * updates the table in place, as the source does, and is proved to return the
 * text and leave the table that the matching function of `Render` describes.
 */
module Compiler {
  import opened Php
  import opened RawSql
  import opened Values
  import opened Render

  /** Once an IN list has met its sub-select, later elements change nothing. */
  lemma {:induction false} InListStops(vs: seq<(Key, Value)>, j: nat, t: Table)
    requires InListOk(vs) && j <= |vs|
    requires InListOk(vs[..j]) && InList(vs[..j], t).1.Some?
    ensures InList(vs, t) == InList(vs[..j], t)
    decreases |vs| - j
  {
    if j < |vs| {
      var front := vs[..|vs| - 1];
      InListFront(vs);
      assert front[..j] == vs[..j];
      InListStops(front, j, t);
    } else {
      assert vs[..j] == vs;
    }
  }

  /** One more element of an IN list whose earlier elements are all scalars. */
  lemma InListStep(vs: seq<(Key, Value)>, i: nat, t: Table)
    requires InListOk(vs) && i < |vs| && NoSubBefore(vs, i)
    ensures InListOk(vs[..i + 1]) && InElementOk(vs[i].1)
    ensures vs[..i + 1][..i] == vs[..i]
    ensures InList(vs[..i + 1], t) == (
      var (names, _, t1) := InList(vs[..i], t);
      if vs[i].1.Sub? then
        var (text, t2) := Render.MergeSubSelect(vs[i].1.select, t1);
        (names, Some(text), t2)
      else
        var (name, t2) := Render.CreateParameter(t1, vs[i].1.scalar);
        (names + [name], None, t2))
  {
    var front := vs[..i + 1];
    assert front[..i] == vs[..i];
    assert InListOk(front) by {
      forall j | 0 <= j < |front| && NoSubBefore(front, j) ensures InElementOk(front[j].1) {
        assert vs[j] == front[j];
        assert NoSubBefore(vs, j);
      }
    }
    assert !HasSub(vs[..i]);
  }

  /**
   * `AbstractStatement::$parameters` and `$parameterIndex`, with the methods
   * that render clauses and allocate placeholders on them.
   */
  class Placeholders {
    var parameters: seq<(string, Scalar)>
    var parameterIndex: nat

    function State(): Table
      reads this
    {
      Table(parameters, parameterIndex)
    }

    constructor (parameters: seq<(string, Scalar)>, parameterIndex: nat)
      ensures State() == Table(parameters, parameterIndex)
    {
      this.parameters := parameters;
      this.parameterIndex := parameterIndex;
    }

    /** `createParameter`. */
    method CreateParameter(v: Scalar) returns (name: string)
      modifies this
      ensures (name, State()) == Render.CreateParameter(old(State()), v)
    {
      name := Name(parameterIndex);
      parameters := Put(parameters, name, v);
      parameterIndex := parameterIndex + 1;
    }

    /** `foreach ($entries as $key => $value) $this->parameters[$key] = $value;` */
    method CopyParameters(entries: seq<(string, Scalar)>)
      modifies this
      ensures State() == Table(PutAll(old(parameters), entries), old(parameterIndex))
    {
      var i := 0;
      while i < |entries|
        invariant 0 <= i <= |entries|
        invariant parameters == PutAll(old(parameters), entries[..i])
        invariant parameterIndex == old(parameterIndex)
      {
        assert entries[..i + 1][..i] == entries[..i];
        parameters := Put(parameters, entries[i].0, entries[i].1);
        i := i + 1;
      }
      assert entries[..i] == entries;
    }

    /** `prepareValue`. */
    method PrepareValue(v: Value) returns (text: string)
      requires v.Scalar? || v.Raw?
      modifies this
      ensures (text, State()) == Render.PrepareValue(v, old(State()))
    {
      if v.Raw? {
        CopyParameters(v.sql.parameters);
        text := v.sql.text;
      } else {
        text := CreateParameter(v.scalar);
      }
    }

    /**
     * `mergeSubSelect`: renders the child on a table of its own that starts at this
     * counter, and returns the text and the child's state after the merge.
     */
    method MergeSubSelect(s: Select) returns (text: string, merged: Select)
      requires SelectOk(s)
      modifies this
      ensures (text, State()) == Render.MergeSubSelect(s, old(State()))
      ensures merged == MergedChild(s, old(State()))
      decreases SizeSelect(s), 1
    {
      var child := new Placeholders(s.parameters, parameterIndex);
      var full := child.RenderSelect(s);
      ghost var rendered := child.State();
      text := RTrim(full, ';');
      CopyParameters(child.parameters);
      parameterIndex := child.parameterIndex;
      merged := s.(query := Some(full), parameters := child.parameters, parameterIndex := child.parameterIndex);
      assert (text, State()) == Merge(full, rendered, old(State()));
    }

    /** `strval($field)`: a sub-select renders on its own table and merges nothing. */
    static method StrValue(v: Value) returns (text: string)
      requires v.Sub? ==> SelectOk(v.select)
      ensures text == StrVal(v)
      decreases SizeValue(v), 1
    {
      match v
      case Scalar(x) => text := ScalarText(x);
      case Raw(sql) => text := sql.text;
      case Nested(_) => text := "Array";
      case Sub(s) =>
        if s.query.Some? && Truthy(s.query.value) {
          text := s.query.value;
        } else {
          var own := new Placeholders(s.parameters, s.parameterIndex);
          text := own.RenderSelect(s);
        }
    }

    /** `SelectStatement::__toString` once the memo is clear. */
    method RenderSelect(s: Select) returns (text: string)
      requires SelectOk(s)
      modifies this
      ensures (text, State()) == Render.RenderSelect(s, old(State()))
      decreases SizeSelect(s), 0
    {
      SizeOfSelect(s);
      SizeOfInput(Terms(s.where));
      var fields := PrepareFields(s.fields);
      var into := PrepareInto(s.into);
      var table := PrepareTable(s.table, s.union, s.unionAll);
      var selfJoins := PrepareSelfJoins(s.selfJoins);
      var joins := PrepareJoins(s.joins);
      var where := PrepareWhere(Terms(s.where), true, InstructionWhere);
      var groupBy := PrepareGroupBy(s.groupBy);
      var having := PrepareHaving(s.having);
      var orderBy := PrepareOrderBy(s.orderBy);
      var limit := PrepareLimit(s.limit, s.page);
      text := "SELECT " + fields + into + " FROM " + table + selfJoins + joins + where + groupBy
        + having + orderBy + limit + ";";
    }

    /** One iteration of `prepareFields`. */
    method FieldEntry(k: Key, v: Value) returns (part: string)
      requires FieldOk(v, k)
      modifies this
      ensures (part, State()) == FieldItem(k, v, old(State()))
      decreases SizeValue(v), 2
    {
      if IsNumericKey(k) {
        part := StrValue(v);
      } else if v.Sub? {
        var sub, _ := MergeSubSelect(v.select);
        part := "(" + sub + ") AS " + PrepareKey(k.name);
      } else {
        part := PrepareKey(k.name) + " AS " + PrepareKey(v.scalar.s);
      }
    }

    /** `prepareFields`. */
    method PrepareFields(items: seq<(Key, Value)>) returns (text: string)
      requires FieldsOk(items)
      modifies this
      ensures (text, State()) == Render.PrepareFields(items, old(State()))
      decreases SizeItems(items), 4
    {
      var parts: seq<string> := [];
      var i := 0;
      while i < |items|
        invariant 0 <= i <= |items|
        invariant (parts, State()) == FieldTerms(items[..i], old(State()))
      {
        assert items[..i + 1][..i] == items[..i];
        SizeItemsBound(items, i);
        var part := FieldEntry(items[i].0, items[i].1);
        parts := parts + [part];
        i := i + 1;
      }
      assert items[..i] == items;
      text := Implode(",", parts);
    }

    /** `prepareTable`. */
    method PrepareTable(table: string, us: seq<Option<Select>>, unionAll: bool) returns (text: string)
      requires UnionOk(us)
      modifies this
      ensures (text, State()) == Render.PrepareTable(table, us, unionAll, old(State()))
      decreases SizeMembers(us), 3
    {
      if us == [] {
        return table;
      }
      var parts: seq<string> := [];
      var i := 0;
      while i < |us|
        invariant 0 <= i <= |us|
        invariant parts == UnionTexts(us[..i], old(State())).0
        invariant State() == UnionTexts(us[..i], old(State())).1
      {
        assert us[..i + 1][..i] == us[..i] && us[..i + 1][i] == us[i];
        SizeMembersBound(us, i);
        var part, _ := MergeSubSelect(us[i].value);
        parts := parts + [part];
        i := i + 1;
      }
      assert us[..i] == us;
      text := "((" + Implode(UnionSeparator(unionAll), parts) + ")) AS " + table;
    }

    /** `prepareJoins`. */
    method PrepareJoins(js: seq<Join>) returns (text: string)
      requires JoinsOk(js)
      modifies this
      ensures (text, State()) == Render.PrepareJoins(js, old(State()))
      decreases SizeJoins(js), 3
    {
      text := "";
      var i := 0;
      while i < |js|
        invariant 0 <= i <= |js|
        invariant (text, State()) == Render.PrepareJoins(js[..i], old(State()))
      {
        assert js[..i + 1][..i] == js[..i];
        SizeJoinsBound(js, i);
        var on := "";
        if InputTruthy(js[i].on) {
          on := JoinOn(js[i].on);
        }
        text := text + (JoinKeyword(js[i].kind) + js[i].target + on + " ");
        i := i + 1;
      }
      assert js[..i] == js;
    }

    /** `joinOn`. */
    method JoinOn(on: Input) returns (text: string)
      requires InputOk(on)
      modifies this
      ensures (text, State()) == Render.JoinOn(on, old(State()))
      decreases SizeInput(on), 2
    {
      if on.Nothing? {
        return "";
      }
      var w := PrepareWhere(on, false, "");
      text := " ON " + w + " ";
    }

    /** The GROUP BY / ORDER BY loop: every value through prepareKey. */
    static method KeyList(items: seq<(Key, Value)>) returns (texts: seq<string>)
      requires KeyListOk(items)
      ensures texts == KeyTexts(items)
    {
      texts := [];
      var i := 0;
      while i < |items|
        invariant 0 <= i <= |items|
        invariant texts == KeyTexts(items[..i])
      {
        assert items[..i + 1][..i] == items[..i];
        texts := texts + [PrepareKey(items[i].1.scalar.s)];
        i := i + 1;
      }
      assert items[..i] == items;
    }

    /** `prepareGroupBy`. */
    static method PrepareGroupBy(items: seq<(Key, Value)>) returns (text: string)
      requires KeyListOk(items)
      ensures text == Render.PrepareGroupBy(items)
    {
      if items == [] {
        return "";
      }
      var texts := KeyList(items);
      text := "\r\nGROUP BY " + Implode(",", texts) + " ";
    }

    /** `prepareOrderBy`. */
    static method PrepareOrderBy(items: seq<(Key, Value)>) returns (text: string)
      requires KeyListOk(items)
      ensures text == Render.PrepareOrderBy(items)
    {
      if items == [] {
        return "";
      }
      var texts := KeyList(items);
      text := "\r\nORDER BY " + Implode(",", texts) + " ";
    }

    /** `prepareHaving`. */
    method PrepareHaving(items: seq<(Key, Value)>) returns (text: string)
      requires TermsOk(items)
      modifies this
      ensures (text, State()) == Render.PrepareHaving(items, old(State()))
      decreases 1 + SizeItems(items), 2
    {
      if items == [] {
        return "";
      }
      SizeOfInput(Terms(items));
      var w := PrepareWhere(Terms(items), true, "");
      text := "\r\nHAVING " + w + " ";
    }

    /** `prepareWhere`. */
    method PrepareWhere(w: Input, bind: bool, prefix: string) returns (text: string)
      requires InputOk(w)
      modifies this
      ensures (text, State()) == Render.PrepareWhere(w, bind, prefix, old(State()))
      decreases SizeInput(w), 1
    {
      if !w.Terms? || w.items == [] {
        return if w.Text? && Truthy(w.text) then prefix + w.text else "";
      }
      SizeOfInput(w);
      var items := w.items;
      var terms: seq<string> := [];
      var i := 0;
      while i < |items|
        invariant 0 <= i <= |items|
        invariant (terms, State()) == WhereTerms(items[..i], bind, old(State()))
      {
        assert items[..i + 1][..i] == items[..i];
        SizeItemsBound(items, i);
        var term := PrepareWhereItem(items[i].0.name, items[i].1, bind);
        terms := terms + [term];
        i := i + 1;
      }
      assert items[..i] == items;
      text := prefix + Implode(" AND ", terms);
    }

    /** `prepareWhereItem`. */
    method PrepareWhereItem(key: string, v: Value, bind: bool) returns (text: string)
      requires WhereValueOk(v)
      modifies this
      ensures (text, State()) == WhereItem(key, v, bind, old(State()))
      decreases SizeValue(v), 2
    {
      if v.Nested? {
        SizeOfValue(v);
        var list := PrepareWhereItemValues(v.items);
        text := PrepareKey(key) + " IN (" + list + ")";
      } else if v.Sub? {
        var sub, _ := MergeSubSelect(v.select);
        text := if ' ' in key then key + " (" + sub + ")" else PrepareKey(key) + " = (" + sub + ")";
      } else if IsNumeric(key) && v.Scalar? && v.scalar.Str? {
        text := v.scalar.s;
      } else if v == Scalar(Null) && ' ' in key {
        text := key;
      } else if v == Scalar(Null) {
        text := PrepareKey(key) + " IS NULL";
      } else {
        var value;
        if bind {
          value := PrepareValue(v);
        } else {
          value := if v.Raw? then v.sql.text else ScalarText(v.scalar);
        }
        text := if ' ' in key then key + " " + value else PrepareKey(key) + "=" + value;
      }
    }

    /** `prepareWhereItemValues`: returns at the first sub-select. */
    method PrepareWhereItemValues(vs: seq<(Key, Value)>) returns (text: string)
      requires InListOk(vs)
      modifies this
      ensures (text, State()) == WhereItemValues(vs, old(State()))
      decreases SizeItems(vs), 4
    {
      var keys: seq<string> := [];
      var i := 0;
      while i < |vs|
        invariant 0 <= i <= |vs|
        invariant NoSubBefore(vs, i)
        invariant InListOk(vs[..i])
        invariant (keys, None, State()) == InList(vs[..i], old(State()))
      {
        InListStep(vs, i, old(State()));
        SizeItemsBound(vs, i);
        if vs[i].1.Sub? {
          var sub, _ := MergeSubSelect(vs[i].1.select);
          assert InList(vs[..i + 1], old(State())) == (keys, Some(sub), State());
          InListStops(vs, i + 1, old(State()));
          return sub;
        }
        var name := CreateParameter(vs[i].1.scalar);
        keys := keys + [name];
        i := i + 1;
      }
      assert vs[..i] == vs;
      text := Implode(",", keys);
    }
  }
}
